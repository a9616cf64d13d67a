/** The entitlement token: what it says, when it is minted again, and why pulls and plan changes that overlap in any
    way leave it saying what the rows mean. Times are epoch milliseconds. */
module Entitlement {
  import opened Options

  type PlanId = nat
  const FLOOR_PLAN: PlanId := 0
  const TOKEN_TTL := 30 * 24 * 60 * 60 * 1000

  datatype Limits = Limits(members: int, businessBooks: int, devices: int, envelopesPerBook: int, tenantBytes: int,
    attachmentBytes: int)

  /** The only extras a plan may gate, in the order the token lists them; a hand-edited row may hold other names. */
  datatype Feature = PdfOutput | StatementImport | OtherName(id: nat)
  const FEATURES: seq<Feature> := [PdfOutput, StatementImport]

  datatype Plan = Plan(id: PlanId, limits: Limits, features: set<Feature>)

  /** The database keeps the floor plan in the catalogue. */
  type Catalogue = m: map<PlanId, Plan> | FLOOR_PLAN in m
    witness map[FLOOR_PLAN := Plan(FLOOR_PLAN, Limits(0, 0, 0, 0, 0, 0), {})]

  datatype Status = Trial | Expired | OtherStatus(word: nat)

  /** A tenant's subscription row, or no row at all. `dunning` is `grace_kind = 'dunning'`. */
  datatype Sub = NoSub | Sub(plan: PlanId, status: Status, currentPeriodEnd: Option<int>, trialEnd: Option<int>,
                             dunning: bool, graceUntil: Option<int>, updatedAt: int)

  datatype Payload = Payload(tenant: nat, plan: PlanId, limits: Limits, features: seq<Feature>, periodEnd: Option<int>,
                             dunning: bool, graceUntil: Option<int>, iat: int, exp: int)

  /** Stored bytes: the canonical bytes of a payload, one for one, or bytes no payload can be read from. */
  datatype Token = Unreadable | Bytes(payload: Payload)

  datatype TokenRow = TokenRow(token: Token, createdAt: int, expiresAt: int)

  // ------------------------------------------------------------------ what the rows mean

  function PlanOf(sub: Sub, cat: Catalogue): Plan {
    if sub.Sub? && sub.plan in cat then cat[sub.plan] else cat[FLOOR_PLAN]
  }

  function Held(p: Plan, fs: seq<Feature>): seq<Feature> {
    if fs == [] then [] else (if fs[0] in p.features then [fs[0]] else []) + Held(p, fs[1..])
  }

  function PeriodEndOf(sub: Sub, iat: int): Option<int> {
    if sub.NoSub? then None
    else if sub.status.Trial? then sub.trialEnd
    else if sub.status.Expired? then
      Some(if sub.currentPeriodEnd.None? || sub.currentPeriodEnd.value > iat then iat else sub.currentPeriodEnd.value)
    else sub.currentPeriodEnd
  }

  function GraceUntilOf(sub: Sub): Option<int> {
    if sub.Sub? && sub.dunning then sub.graceUntil else None
  }

  function EntitlementFor(tenant: nat, sub: Sub, cat: Catalogue, iat: int): Payload {
    var plan := PlanOf(sub, cat);
    Payload(tenant, plan.id, plan.limits, Held(plan, FEATURES), PeriodEndOf(sub, iat), sub.Sub? && sub.dunning,
            GraceUntilOf(sub), iat, iat + TOKEN_TTL)
  }

  /** A lapsed tenant's period is over by the time the token is issued, and the token says so; no grace without dunning,
      no extra the plan does not hold or may not gate, and none twice. */
  predicate InventsNothing(p: Payload, sub: Sub, cat: Catalogue) {
    && (sub.Sub? && sub.status.Expired? ==> p.periodEnd.Some? && p.periodEnd.value <= p.iat)
    && (p.graceUntil.Some? ==> p.dunning)
    && (forall f :: f in p.features ==> f in PlanOf(sub, cat).features && (f.PdfOutput? || f.StatementImport?))
    && (forall j, k :: 0 <= j < k < |p.features| ==> p.features[j] != p.features[k])
  }

  lemma PayloadInventsNothing(tenant: nat, sub: Sub, cat: Catalogue, iat: int)
    ensures InventsNothing(EntitlementFor(tenant, sub, cat, iat), sub, cat)
  {
    var plan := PlanOf(sub, cat);
    assert FEATURES[1..] == [StatementImport] && FEATURES[1..][1..] == [];
    assert Held(plan, FEATURES[1..]) == if StatementImport in plan.features then [StatementImport] else [];
  }

  // ------------------------------------------------------------------ the rule

  /** Mint when nothing is stored, when it has expired, when the subscription row is newer, or when the stored bytes
      are not what the rows mean at the token's own `iat`. */
  predicate NeedsMint(tenant: nat, sub: Sub, cat: Catalogue, row: Option<TokenRow>, now: int) {
    || row.None?
    || row.value.expiresAt <= now
    || (sub.Sub? && sub.updatedAt > row.value.createdAt)
    || row.value.token.Unreadable?
    || row.value.token.payload != EntitlementFor(tenant, sub, cat, row.value.token.payload.iat)
  }

  /** The rule it superseded: the catalogue's timestamp in the place of the bytes. */
  predicate OldNeedsMint(sub: Sub, catUpdatedAt: int, row: Option<TokenRow>, now: int) {
    || row.None?
    || row.value.expiresAt <= now
    || (sub.Sub? && sub.updatedAt > row.value.createdAt)
    || catUpdatedAt > row.value.createdAt
  }

  // ------------------------------------------------------------------ overlapping transactions

  /** A pull of one tenant's token: begun; with the tenant's rows read; or with the catalogue read too and its decision
      made. The two reads are two statements, and rows may be written between them. */
  datatype Pull =
    | Begun(start: int)
    | HalfRead(start: int, now: int, sub: Sub, row: Option<TokenRow>)
    | Decided(start: int, mint: Option<Payload>)

  datatype World = World(tenant: nat, sub: Sub, cat: Catalogue, row: Option<TokenRow>, dbNow: int,
                         pulls: map<nat, Pull>)

  datatype Step =
    | Tick(to: int)
    | Begin(id: nat)
    | ReadStates(id: nat, now: int)
    | ReadCatalogue(id: nat)
    | Write(id: nat)
    | Change(sub: Sub, cat: Catalogue)

  predicate Enabled(w: World, s: Step) {
    match s
    case Tick(to) => w.dbNow <= to
    case Begin(id) => id !in w.pulls
    case ReadStates(id, now) => id in w.pulls && w.pulls[id].Begun?
    case ReadCatalogue(id) => id in w.pulls && w.pulls[id].HalfRead?
    case Write(id) => id in w.pulls && w.pulls[id].Decided?
    case Change(sub, cat) => sub.Sub? ==> sub.updatedAt <= w.dbNow
  }

  /** What a pull decides from the rows it read and the catalogue of this moment. */
  function Decision(w: World, p: Pull): Option<Payload>
    requires p.HalfRead?
  {
    if NeedsMint(w.tenant, p.sub, w.cat, p.row, p.now) then Some(EntitlementFor(w.tenant, p.sub, w.cat, p.now))
      else None
  }

  /** A write stores the token under its transaction's start; a change commits rows stamped with its own start. */
  function Next(w: World, s: Step): World
    requires Enabled(w, s)
  {
    match s
    case Tick(to) => w.(dbNow := to)
    case Begin(id) => w.(pulls := w.pulls[id := Begun(w.dbNow)])
    case ReadStates(id, now) => w.(pulls := w.pulls[id := HalfRead(w.pulls[id].start, now, w.sub, w.row)])
    case ReadCatalogue(id) => w.(pulls := w.pulls[id := Decided(w.pulls[id].start, Decision(w, w.pulls[id]))])
    case Write(id) =>
      var p := w.pulls[id];
      var row := if p.mint.Some? then Some(TokenRow(Bytes(p.mint.value), p.start, p.mint.value.exp)) else w.row;
      w.(row := row, pulls := w.pulls - {id})
    case Change(sub, cat) => w.(sub := sub, cat := cat)
  }

  /** A run with no more plan changes. */
  predicate QuietRun(w: World, steps: seq<Step>, end: World)
    decreases |steps|
  {
    if steps == [] then w == end
    else !steps[0].Change? && Enabled(w, steps[0]) && QuietRun(Next(w, steps[0]), steps[1..], end)
  }

  /** A step of the run is a pull finishing. */
  predicate Finishes(steps: seq<Step>) {
    exists k :: 0 <= k < |steps| && steps[k].Write?
  }

  function Meant(w: World, iat: int): Payload {
    EntitlementFor(w.tenant, w.sub, w.cat, iat)
  }

  predicate SaysWhatRowsMean(w: World, row: Option<TokenRow>) {
    row.Some? && row.value.token.Bytes? && row.value.token.payload == Meant(w, row.value.token.payload.iat)
  }

  /** The stored token says what the rows mean. */
  predicate Current(w: World) {
    SaysWhatRowsMean(w, w.row)
  }

  /** Every pull that read anything has finished. */
  predicate ReadersFinished(w: World) {
    forall id :: id in w.pulls ==> w.pulls[id].Begun?
  }

  /** What a pull read or decided is about the present rows. */
  predicate HonestPull(w: World, p: Pull) {
    match p
    case Begun(_) => true
    case HalfRead(_, _, sub, row) => sub == w.sub && (SaysWhatRowsMean(w, row) ==> Current(w))
    case Decided(_, mint) => if mint.Some? then mint.value == Meant(w, mint.value.iat) else Current(w)
  }

  predicate Honest(w: World) {
    forall id :: id in w.pulls ==> HonestPull(w, w.pulls[id])
  }

  lemma QuietStep(w: World, s: Step)
    requires Honest(w) && !s.Change? && Enabled(w, s)
    ensures Honest(Next(w, s))
    ensures Current(w) || s.Write? ==> Current(Next(w, s))
  {
  }

  lemma {:induction false} QuietKeeps(w: World, steps: seq<Step>, end: World)
    requires Honest(w) && QuietRun(w, steps, end)
    ensures Honest(end)
    ensures Current(w) || Finishes(steps) ==> Current(end)
    ensures end.tenant == w.tenant && end.sub == w.sub && end.cat == w.cat
    decreases |steps|
  {
    if steps != [] {
      QuietStep(w, steps[0]);
      QuietKeeps(Next(w, steps[0]), steps[1..], end);
      if k :| 0 < k < |steps| && steps[k].Write? {
        assert steps[1..][k - 1].Write?;
      }
    }
  }

  /** Convergence: once changes stop and the pulls that read before have finished, the first pull to finish leaves a
      token that says what the rows mean, and it says so ever after, however further pulls overlap. */
  lemma {:induction false} TokenConverges(w: World, steps: seq<Step>, end: World)
    requires ReadersFinished(w) && QuietRun(w, steps, end) && Finishes(steps)
    ensures Current(end)
  {
    QuietKeeps(w, steps, end);
  }

  /** And that token never invents entitlement: whatever was stored or read before, it grants nothing beyond the present
      plan, period and dunning state. */
  lemma {:induction false} TokenNeverInventsEntitlement(w: World, steps: seq<Step>, end: World)
    requires ReadersFinished(w) && QuietRun(w, steps, end) && Finishes(steps)
    ensures end.row.Some? && end.row.value.token.Bytes?
    ensures InventsNothing(end.row.value.token.payload, w.sub, w.cat)
  {
    QuietKeeps(w, steps, end);
    PayloadInventsNothing(w.tenant, w.sub, w.cat, end.row.value.token.payload.iat);
  }

  /** What a token must say under a plan, spelled out. */
  predicate SaysOfPlan(p: Payload, plan: Plan) {
    && p.plan == plan.id && p.limits == plan.limits
    && p.features == (if PdfOutput in plan.features then [PdfOutput] else [])
                     + (if StatementImport in plan.features then [StatementImport] else [])
  }

  /** And under a subscription row: the trial's end; a lapsed period's end, never after the token's own time; else the
      period's end as it stands. Grace is copied in dunning only. */
  predicate SaysOfRow(p: Payload, status: Status, currentPeriodEnd: Option<int>, trialEnd: Option<int>, dunning: bool,
      graceUntil: Option<int>) {
    && (match status
        case Trial => p.periodEnd == trialEnd
        case Expired =>
          && p.periodEnd.Some? && p.periodEnd.value <= p.iat
          && (p.periodEnd == Some(p.iat) || p.periodEnd == currentPeriodEnd)
          && (currentPeriodEnd.Some? ==> p.periodEnd.value <= currentPeriodEnd.value)
        case OtherStatus(_) => p.periodEnd == currentPeriodEnd)
    && p.dunning == dunning && p.graceUntil == if dunning then graceUntil else None
  }

  /** The stored token spelled out, however pulls overlap after the last change: the plan the row names if the catalogue
      holds it, else the floor plan; the row's own period and grace; thirty days from its own time. */
  lemma {:induction false} TokenSaysThePlan(w: World, steps: seq<Step>, end: World)
    requires ReadersFinished(w) && QuietRun(w, steps, end) && Finishes(steps)
    ensures end.row.Some? && end.row.value.token.Bytes?
    ensures var p := end.row.value.token.payload;
      && p.tenant == w.tenant && p.exp == p.iat + 2592000000
      && (w.sub.Sub? && w.sub.plan in w.cat ==> SaysOfPlan(p, w.cat[w.sub.plan]))
      && (w.sub.NoSub? || w.sub.plan !in w.cat ==> SaysOfPlan(p, w.cat[0]))
      && (w.sub.NoSub? ==> p.periodEnd.None? && !p.dunning && p.graceUntil.None?)
      && (w.sub.Sub? ==>
            SaysOfRow(p, w.sub.status, w.sub.currentPeriodEnd, w.sub.trialEnd, w.sub.dunning, w.sub.graceUntil))
  {
    QuietKeeps(w, steps, end);
    HeldInOrder(PlanOf(w.sub, w.cat));
  }

  lemma HeldInOrder(plan: Plan)
    ensures Held(plan, FEATURES) == (if PdfOutput in plan.features then [PdfOutput] else [])
                                    + (if StatementImport in plan.features then [StatementImport] else [])
  {
    assert FEATURES[1..] == [StatementImport] && FEATURES[1..][1..] == [];
    assert Held(plan, FEATURES[1..]) == if StatementImport in plan.features then [StatementImport] else [];
  }

  // ------------------------------------------------------------------ no needless minting

  /** Rule 3's guard: the subscription row is newer than the stored token. */
  predicate OlderThanTheRow(w: World) {
    w.sub.Sub? && w.row.Some? && w.sub.updatedAt > w.row.value.createdAt
  }

  /** From then on a pull mints exactly when the token has expired or its writer's transaction began before the last
      subscription change did. Nothing else ever makes it mint. */
  lemma {:induction false} MintsExactlyWhen(w: World, steps: seq<Step>, end: World, now: int)
    requires ReadersFinished(w) && QuietRun(w, steps, end) && Finishes(steps)
    ensures end.row.Some?
    ensures NeedsMint(end.tenant, end.sub, end.cat, end.row, now)
         <==> end.row.value.expiresAt <= now || OlderThanTheRow(end)
  {
    TokenConverges(w, steps, end);
  }

  /** Every pull in flight began after the last subscription change did. */
  predicate Fresh(w: World) {
    w.sub.Sub? ==>
      w.sub.updatedAt <= w.dbNow && forall id :: id in w.pulls ==> w.sub.updatedAt <= w.pulls[id].start
  }

  predicate SettledRow(w: World, row: Option<TokenRow>) {
    SaysWhatRowsMean(w, row) && (w.sub.Sub? ==> w.sub.updatedAt <= row.value.createdAt)
  }

  /** The stored token is current and not older than the subscription row. */
  predicate Settled(w: World) {
    SettledRow(w, w.row)
  }

  /** One pull among the others: what it saw settled still is. */
  predicate Tracked(w: World, id: nat) {
    id in w.pulls ==>
      match w.pulls[id]
      case Begun(_) => true
      case HalfRead(_, _, _, row) => SettledRow(w, row) ==> Settled(w)
      case Decided(_, mint) => mint.None? ==> Settled(w)
  }

  lemma TrackedStep(w: World, s: Step, id: nat)
    requires Honest(w) && Fresh(w) && Tracked(w, id) && !s.Change? && Enabled(w, s)
    ensures Honest(Next(w, s)) && Fresh(Next(w, s)) && Tracked(Next(w, s), id)
    ensures Settled(w) || s == Write(id) ==> Settled(Next(w, s))
  {
    QuietStep(w, s);
  }

  lemma {:induction false} TrackedKeeps(w: World, steps: seq<Step>, end: World, id: nat)
    requires Honest(w) && Fresh(w) && Tracked(w, id) && QuietRun(w, steps, end)
    ensures Settled(w) || Write(id) in steps ==> Settled(end)
    decreases |steps|
  {
    if steps != [] {
      TrackedStep(w, steps[0], id);
      TrackedKeeps(Next(w, steps[0]), steps[1..], end, id);
    }
  }

  /** Once the pulls that began before the last subscription change are gone, one further pull, read from its start and
      finished, settles the token for good, whatever else is in flight. */
  lemma {:induction false} OneFurtherPullSettles(w: World, before: seq<Step>, mid: World, id: nat, after: seq<Step>,
      end: World, now: int)
    requires ReadersFinished(w) && QuietRun(w, before, mid) && Fresh(mid)
    requires id in mid.pulls ==> mid.pulls[id].Begun?
    requires QuietRun(mid, after, end) && Write(id) in after
    ensures end.row.Some? && !OlderThanTheRow(end)
    ensures NeedsMint(end.tenant, end.sub, end.cat, end.row, now) <==> end.row.value.expiresAt <= now
  {
    QuietKeeps(w, before, mid);
    TrackedKeeps(mid, after, end, id);
  }

  /** With no such pull in flight at all, the first pull to finish settles it: a replayed pull is byte-stable. */
  lemma {:induction false} NoMintBeforeExpiry(w: World, steps: seq<Step>, end: World, now: int)
    requires ReadersFinished(w) && Fresh(w) && QuietRun(w, steps, end) && Finishes(steps)
    ensures end.row.Some?
    ensures NeedsMint(end.tenant, end.sub, end.cat, end.row, now) <==> end.row.value.expiresAt <= now
  {
    var k :| 0 <= k < |steps| && steps[k].Write?;
    assert Write(steps[k].id) in steps;
    MintsExactlyWhen(w, steps, end, now);
    TrackedKeeps(w, steps, end, steps[k].id);
  }

  /** And the other case occurs, whatever is stored: a pull that began before a change began, but reads after it and
      mints, stores a true token that the next pull mints again at any time. */
  lemma EarlyPullIsMintedAgain(w: World, id: nat, now: int, later: int)
    requires id in w.pulls && w.pulls[id].Begun? && w.sub.Sub? && w.pulls[id].start < w.sub.updatedAt
    requires NeedsMint(w.tenant, w.sub, w.cat, w.row, now)
    ensures var end := Next(Next(Next(w, ReadStates(id, now)), ReadCatalogue(id)), Write(id));
      Current(end) && OlderThanTheRow(end) && NeedsMint(end.tenant, end.sub, end.cat, end.row, later)
  {
  }

  // ------------------------------------------------------------------ the superseded rule

  /** A pull reads the catalogue, a change that began before the pull commits, and the pull writes: under the timestamp
      rule no pull before the expiry mints, and the token stays untrue; under the byte rule the next pull mints. */
  lemma TimestampRuleStaysStale(w: World, id: nat, cat: Catalogue, catUpdatedAt: int, now: int, later: int)
    requires w.row.None? && id !in w.pulls && w.sub.NoSub?
    requires catUpdatedAt <= w.dbNow && later < now + TOKEN_TTL
    requires EntitlementFor(w.tenant, w.sub, cat, now) != EntitlementFor(w.tenant, w.sub, w.cat, now)
    ensures var read := Next(Next(Next(w, Begin(id)), ReadStates(id, now)), ReadCatalogue(id));
      var end := Next(Next(read, Change(w.sub, cat)), Write(id));
      && !Current(end)
      && !OldNeedsMint(end.sub, catUpdatedAt, end.row, later)
      && NeedsMint(end.tenant, end.sub, end.cat, end.row, later)
  {
  }
}
