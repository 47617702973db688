/**
 * Authentication as a state machine: any number of callers log in, link wallets, refresh and
 * are cut off at any point, while sessions are revoked and roles change on the chain.  Each
 * statement and each remote call is one step.  `used`, `grants`, `rotated`, `root`, `issued`,
 * `tokens` and `chain` are history variables.
 */
module AuthProtocol {
  import opened AuthTables
  import opened Prelude

  /** `ttl`: role cache by chain; `contract`: a role contract is configured. */
  datatype Config = Config(roleTtl: int -> int, refreshTtl: int, contract: bool)

  /** A parsed sign-in message; `signed` says that the signature recovers to its address. */
  datatype Request = Request(nonce: int, address: int, chainId: int, signed: bool)

  /** What a role lookup is for. */
  datatype Purpose =
    | ForLogin(req: Request)
    | ForLink(req: Request, user: int, wallet: int)
    | ForRefresh(session: int, user: int, wallet: int, address: int, chainId: int)
    | ForCache(address: int)

  datatype Kind = ViaLogin | ViaLink | ViaRefresh

  /** An answer on its way to the client. */
  datatype Outcome = Outcome(kind: Kind, nonce: int, address: int, role: Role, session: int, user: int, wallet: int)

  datatype Pc =
    | Checking(req: Request, linkTo: Option<int>)
    | FindingOwner(req: Request, user: int)
    | LoadingRole(what: Purpose)
    | AskingChain(what: Purpose)
    | StoringRole(what: Purpose, role: Role)
    | FindingWallet(req: Request, role: Role)
    | AddingWallet(req: Request, role: Role)
    | LinkingWallet(req: Request, user: int)
    | CreatingSession(req: Request, role: Role, user: int, wallet: int)
    | Restamping(out: Outcome)
    | Consuming(out: Outcome)
    | Delivering(out: Outcome, ticket: nat)
    | Answering(out: Outcome)
    | Rotating(token: int)
    | ReadingWallet(session: int, user: int, wallet: int)

  /** A successful consumption, and whether an Ok answer came of it. */
  datatype Use = Use(nonce: int, answered: bool)

  datatype Grant = Grant(nonce: int, kind: Kind, session: int)

  datatype TokenRole = TokenRole(address: int, role: Role)

  datatype State = State(
    nonces: Nonces, sessions: Sessions, wallets: Wallets, clock: int, pcs: map<nat, Pc>,
    issued: seq<int>, used: seq<Use>, grants: seq<Grant>,
    rotated: seq<int>, root: map<int, int>,
    chain: seq<map<int, int>>, tokens: seq<TokenRole>)

  datatype Action =
    | Tick(delta: nat)
    | SetChainRole(address: int, value: int)
    | IssueNonce(nonce: int)
    | Start(c: nat, pc: Pc)
    | Check(c: nat)
    | FindOwner(c: nat, row: Option<int>)
    | LoadRole(c: nat, row: Option<int>)
    | AskChain(c: nat)
    | SaveRole(c: nat)
    | FindWallet(c: nat, row: Option<int>)
    | AddWallet(c: nat, user: int, wallet: int)
    | LinkWallet(c: nat, wallet: int)
    | CreateSession(c: nat, id: int, token: int)
    | Restamp(c: nat, lost: bool)
    | Consume(c: nat)
    | Deliver(c: nat)
    | Answer(c: nat)
    | Rotate(c: nat, id: int, newId: int, newToken: int)
    | ReadWallet(c: nat)
    | Logout(session: int)
    | AdminRevoke(session: int)
    | Fail(c: nat)

  function Init(clock: int, onChain: map<int, int>): State {
    State(map[], map[], map[], clock, map[], [], [], [], [], map[], [onChain], [])
  }

  function ChainRole(onChain: map<int, int>, address: int): Role {
    RoleFromU8(if address in onChain then onChain[address] else 0)
  }

  function Address(what: Purpose): int {
    match what
    case ForLogin(req) => req.address
    case ForLink(req, _, _) => req.address
    case ForRefresh(_, _, _, address, _) => address
    case ForCache(address) => address
  }

  function ChainId(what: Purpose): int {
    match what
    case ForLogin(req) => req.chainId
    case ForLink(req, _, _) => req.chainId
    case ForRefresh(_, _, _, _, chainId) => chainId
    case ForCache(_) => 0
  }

  /** Moves caller c to its next step, or lets it end. */
  function Go(s: State, c: nat, pc: Pc): State {
    s.(pcs := s.pcs[c := pc])
  }

  function Done(s: State, c: nat): State {
    s.(pcs := s.pcs - {c})
  }

  /** Where a caller goes on once its role is known. */
  function WithRole(s: State, c: nat, what: Purpose, role: Role): State {
    match what
    case ForLogin(req) => Go(s, c, FindingWallet(req, role))
    case ForLink(req, user, wallet) =>
      Go(s, c, Restamping(Outcome(ViaLink, req.nonce, req.address, role, 0, user, wallet)))
    case ForRefresh(session, user, wallet, address, _) =>
      Go(s, c, Restamping(Outcome(ViaRefresh, 0, address, role, session, user, wallet)))
    case ForCache(_) => Done(s, c)
  }

  predicate IsEntry(pc: Pc) {
    match pc
    case Checking(_, _) => true
    case Rotating(_) => true
    case AskingChain(ForCache(_)) => true
    case _ => false
  }

  /** Row `row` is one the query by address can return; None when there is no such row. */
  predicate Finds(t: Wallets, address: int, row: Option<int>) {
    if row.Some? then row.value in t && t[row.value].address == address else !AddressKnown(t, address)
  }

  // ----- Steps of login and link_wallet -----

  function CheckStep(s: State, c: nat): State
    requires c in s.pcs && s.pcs[c].Checking?
  {
    var pc := s.pcs[c];
    if NonceError(s.nonces, pc.req.nonce, s.clock).Some? || !pc.req.signed then Done(s, c)
    else if pc.linkTo.Some? then Go(s, c, FindingOwner(pc.req, pc.linkTo.value))
    else Go(s, c, LoadingRole(ForLogin(pc.req)))
  }

  function FindOwnerStep(s: State, c: nat, row: Option<int>): State
    requires c in s.pcs && s.pcs[c].FindingOwner? && Finds(s.wallets, s.pcs[c].req.address, row)
  {
    var pc := s.pcs[c];
    if row.None? then Go(s, c, LinkingWallet(pc.req, pc.user))
    else if s.wallets[row.value].user != pc.user then Done(s, c)
    else Go(s, c, Consuming(Outcome(ViaLink, pc.req.nonce, pc.req.address, NoRole, 0, pc.user, row.value)))
  }

  function LinkWalletStep(s: State, c: nat, wallet: int): State
    requires c in s.pcs && s.pcs[c].LinkingWallet?
  {
    var pc := s.pcs[c];
    if wallet in s.wallets || WalletTaken(s.wallets, pc.req.address, pc.req.chainId) then Done(s, c)
    else Go(s.(wallets := s.wallets[wallet := WalletRow(pc.user, pc.req.address, pc.req.chainId, None)]), c,
            LoadingRole(ForLink(pc.req, pc.user, wallet)))
  }

  function FindWalletStep(s: State, c: nat, row: Option<int>): State
    requires c in s.pcs && s.pcs[c].FindingWallet? && Finds(s.wallets, s.pcs[c].req.address, row)
  {
    var pc := s.pcs[c];
    if row.None? then Go(s, c, AddingWallet(pc.req, pc.role))
    else Go(s, c, CreatingSession(pc.req, pc.role, s.wallets[row.value].user, row.value))
  }

  function AddWalletStep(s: State, c: nat, user: int, wallet: int): State
    requires c in s.pcs && s.pcs[c].AddingWallet?
  {
    var pc := s.pcs[c];
    if wallet in s.wallets || WalletTaken(s.wallets, pc.req.address, pc.req.chainId) then Done(s, c)
    else Go(s.(wallets := s.wallets[wallet := WalletRow(user, pc.req.address, pc.req.chainId, None)]), c,
            CreatingSession(pc.req, pc.role, user, wallet))
  }

  function CreateSessionStep(cfg: Config, s: State, c: nat, id: int, token: int): State
    requires c in s.pcs && s.pcs[c].CreatingSession?
  {
    var pc := s.pcs[c];
    if !CanInsert(s.sessions, id, Hashed(token)) then Done(s, c)
    else
      var row := SessionRow(pc.user, pc.wallet, s.clock + cfg.refreshTtl, Hashed(token), None);
      Go(s.(sessions := s.sessions[id := row], root := s.root[id := id]), c,
         Restamping(Outcome(ViaLogin, pc.req.nonce, pc.req.address, pc.role, id, pc.user, pc.wallet)))
  }

  // ----- Role lookups -----

  function LoadRoleStep(cfg: Config, s: State, c: nat, row: Option<int>): State
    requires c in s.pcs && s.pcs[c].LoadingRole? && Finds(s.wallets, Address(s.pcs[c].what), row)
  {
    var what := s.pcs[c].what;
    var hit := if row.None? then None else FreshRole(s.wallets[row.value], cfg.roleTtl(ChainId(what)), s.clock);
    if hit.Some? then WithRole(s, c, what, hit.value) else Go(s, c, AskingChain(what))
  }

  function AskChainStep(cfg: Config, s: State, c: nat): State
    requires c in s.pcs && s.pcs[c].AskingChain? && s.chain != []
  {
    var what := s.pcs[c].what;
    var role := if cfg.contract then ChainRole(s.chain[|s.chain| - 1], Address(what)) else Viewer;
    Go(s, c, StoringRole(what, role))
  }

  function SaveRoleStep(s: State, c: nat): State
    requires c in s.pcs && s.pcs[c].StoringRole?
  {
    var pc := s.pcs[c];
    WithRole(s.(wallets := StoreRole(s.wallets, Address(pc.what), pc.role, s.clock)), c, pc.what, pc.role)
  }

  /** The second store of the role, whose failure is ignored. */
  function RestampStep(s: State, c: nat, lost: bool): State
    requires c in s.pcs && s.pcs[c].Restamping?
  {
    var out := s.pcs[c].out;
    var t := if lost then s else s.(wallets := StoreRole(s.wallets, out.address, out.role, s.clock));
    Go(t, c, if out.kind.ViaRefresh? then Answering(out) else Consuming(out))
  }

  // ----- Consumption and answers -----

  function ConsumeStep(s: State, c: nat): State
    requires c in s.pcs && s.pcs[c].Consuming?
  {
    var out := s.pcs[c].out;
    if !IsFree(s.nonces, out.nonce) then Done(s, c)
    else Go(s.(nonces := ConsumeNonce(s.nonces, out.nonce, s.clock), used := s.used + [Use(out.nonce, false)]), c,
            Delivering(out, |s.used|))
  }

  function Issued(out: Outcome): seq<TokenRole> {
    if out.kind.ViaLink? then [] else [TokenRole(out.address, out.role)]
  }

  function DeliverStep(s: State, c: nat): State
    requires c in s.pcs && s.pcs[c].Delivering? && s.pcs[c].ticket < |s.used|
  {
    var pc := s.pcs[c];
    Done(s.(used := s.used[pc.ticket := s.used[pc.ticket].(answered := true)],
            grants := s.grants + [Grant(pc.out.nonce, pc.out.kind, pc.out.session)],
            tokens := s.tokens + Issued(pc.out)), c)
  }

  function AnswerStep(s: State, c: nat): State
    requires c in s.pcs && s.pcs[c].Answering?
  {
    Done(s.(tokens := s.tokens + Issued(s.pcs[c].out)), c)
  }

  // ----- Refresh -----

  function RotateStep(cfg: Config, s: State, c: nat, id: int, newId: int, newToken: int): State
    requires c in s.pcs && s.pcs[c].Rotating?
  {
    var token := s.pcs[c].token;
    if !CanRotate(s.sessions, id, token, s.clock) || !CanInsert(s.sessions, newId, Hashed(newToken)) then Done(s, c)
    else
      var row := s.sessions[id];
      Go(s.(sessions := RotateSession(s.sessions, id, s.clock, newId, newToken, s.clock + cfg.refreshTtl),
            rotated := s.rotated + [token],
            root := s.root[newId := if id in s.root then s.root[id] else id]), c,
         ReadingWallet(newId, row.user, row.wallet))
  }

  function ReadWalletStep(s: State, c: nat): State
    requires c in s.pcs && s.pcs[c].ReadingWallet?
  {
    var pc := s.pcs[c];
    if pc.wallet !in s.wallets then Done(s, c)
    else
      var w := s.wallets[pc.wallet];
      Go(s, c, LoadingRole(ForRefresh(pc.session, pc.user, pc.wallet, w.address, w.chainId)))
  }

  // ----- The machine -----

  predicate Enabled(s: State, a: Action) {
    match a
    case Tick(_) => true
    case SetChainRole(_, _) => s.chain != []
    case IssueNonce(_) => true
    case Start(c, pc) => c !in s.pcs && IsEntry(pc)
    case Check(c) => c in s.pcs && s.pcs[c].Checking?
    case FindOwner(c, row) => c in s.pcs && s.pcs[c].FindingOwner? && Finds(s.wallets, s.pcs[c].req.address, row)
    case LoadRole(c, row) => c in s.pcs && s.pcs[c].LoadingRole? && Finds(s.wallets, Address(s.pcs[c].what), row)
    case AskChain(c) => c in s.pcs && s.pcs[c].AskingChain? && s.chain != []
    case SaveRole(c) => c in s.pcs && s.pcs[c].StoringRole?
    case FindWallet(c, row) => c in s.pcs && s.pcs[c].FindingWallet? && Finds(s.wallets, s.pcs[c].req.address, row)
    case AddWallet(c, _, _) => c in s.pcs && s.pcs[c].AddingWallet?
    case LinkWallet(c, _) => c in s.pcs && s.pcs[c].LinkingWallet?
    case CreateSession(c, _, _) => c in s.pcs && s.pcs[c].CreatingSession?
    case Restamp(c, _) => c in s.pcs && s.pcs[c].Restamping?
    case Consume(c) => c in s.pcs && s.pcs[c].Consuming?
    case Deliver(c) => c in s.pcs && s.pcs[c].Delivering? && s.pcs[c].ticket < |s.used|
    case Answer(c) => c in s.pcs && s.pcs[c].Answering?
    case Rotate(c, _, _, _) => c in s.pcs && s.pcs[c].Rotating?
    case ReadWallet(c) => c in s.pcs && s.pcs[c].ReadingWallet?
    case Logout(_) => true
    case AdminRevoke(_) => true
    case Fail(c) => c in s.pcs
  }

  /** One step; an action that is not possible changes nothing. */
  function Next(cfg: Config, s: State, a: Action): State {
    if !Enabled(s, a) then s
    else match a
      case Tick(d) => s.(clock := s.clock + d)
      case SetChainRole(address, value) => s.(chain := s.chain + [s.chain[|s.chain| - 1][address := value]])
      case IssueNonce(nonce) =>
        s.(nonces := PersistNonce(s.nonces, nonce, s.clock + NONCE_TTL), issued := s.issued + [nonce])
      case Start(c, pc) => Go(s, c, pc)
      case Check(c) => CheckStep(s, c)
      case FindOwner(c, row) => FindOwnerStep(s, c, row)
      case LoadRole(c, row) => LoadRoleStep(cfg, s, c, row)
      case AskChain(c) => AskChainStep(cfg, s, c)
      case SaveRole(c) => SaveRoleStep(s, c)
      case FindWallet(c, row) => FindWalletStep(s, c, row)
      case AddWallet(c, user, wallet) => AddWalletStep(s, c, user, wallet)
      case LinkWallet(c, wallet) => LinkWalletStep(s, c, wallet)
      case CreateSession(c, id, token) => CreateSessionStep(cfg, s, c, id, token)
      case Restamp(c, lost) => RestampStep(s, c, lost)
      case Consume(c) => ConsumeStep(s, c)
      case Deliver(c) => DeliverStep(s, c)
      case Answer(c) => AnswerStep(s, c)
      case Rotate(c, id, newId, newToken) => RotateStep(cfg, s, c, id, newId, newToken)
      case ReadWallet(c) => ReadWalletStep(s, c)
      case Logout(session) => s.(sessions := RevokeSession(s.sessions, session, s.clock))
      case AdminRevoke(session) => s.(sessions := RevokeIfLive(s.sessions, session, s.clock))
      case Fail(c) => Done(s, c)
  }

  function Execute(cfg: Config, s: State, trace: seq<Action>): State {
    if trace == [] then s else Next(cfg, Execute(cfg, s, trace[..|trace| - 1]), trace[|trace| - 1])
  }

  lemma ExecuteAppend(cfg: Config, s: State, trace: seq<Action>, a: Action)
    ensures Execute(cfg, s, trace + [a]) == Next(cfg, Execute(cfg, s, trace), a)
  {
    assert (trace + [a])[..|trace|] == trace;
  }

  /** The protocol's step of a caller, as a table; where `Next` is hidden this stands in for it. */
  lemma NextIs(cfg: Config, s: State, a: Action)
    requires Enabled(s, a)
    ensures match a
            case Start(c, pc) => Next(cfg, s, a) == Go(s, c, pc)
            case Check(c) => Next(cfg, s, a) == CheckStep(s, c)
            case FindOwner(c, row) => Next(cfg, s, a) == FindOwnerStep(s, c, row)
            case LoadRole(c, row) => Next(cfg, s, a) == LoadRoleStep(cfg, s, c, row)
            case AskChain(c) => Next(cfg, s, a) == AskChainStep(cfg, s, c)
            case SaveRole(c) => Next(cfg, s, a) == SaveRoleStep(s, c)
            case FindWallet(c, row) => Next(cfg, s, a) == FindWalletStep(s, c, row)
            case AddWallet(c, user, wallet) => Next(cfg, s, a) == AddWalletStep(s, c, user, wallet)
            case LinkWallet(c, wallet) => Next(cfg, s, a) == LinkWalletStep(s, c, wallet)
            case CreateSession(c, id, token) => Next(cfg, s, a) == CreateSessionStep(cfg, s, c, id, token)
            case Restamp(c, lost) => Next(cfg, s, a) == RestampStep(s, c, lost)
            case Consume(c) => Next(cfg, s, a) == ConsumeStep(s, c)
            case Deliver(c) => Next(cfg, s, a) == DeliverStep(s, c)
            case Answer(c) => Next(cfg, s, a) == AnswerStep(s, c)
            case Rotate(c, id, newId, newToken) => Next(cfg, s, a) == RotateStep(cfg, s, c, id, newId, newToken)
            case ReadWallet(c) => Next(cfg, s, a) == ReadWalletStep(s, c)
            case _ => true
  {
  }
}
