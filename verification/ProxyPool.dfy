/** The proxy scheduler as a value: what each operation of the proxy manager does to the pool.
    The class in ProxyManager.dfy performs the same operations in place. */
module ProxyPool {
  import opened Options
  import opened Sequences

  type Proxy = string

  /** Microseconds since some epoch, the resolution of the source's timestamps. */
  type Time = int

  const MICROS_PER_SECOND := 1_000_000

  datatype FailureType = Blocked | Network | Ssl | Server | Unknown

  /** The configured values, which may be anything; each use normalises its own. */
  datatype Settings = Settings(
    softBanFailureThreshold: int,
    hardBanFailureThreshold: int,
    softBanTtlSeconds: int,
    successDecay: int,
    sourceFailureThreshold: int,
    sourceCooldownSeconds: int,
    replenishAttempts: int,
    minAvailableProxies: int)
  {
    function SoftThreshold(): int { Max(1, softBanFailureThreshold) }
    function HardThreshold(): int { Max(SoftThreshold(), hardBanFailureThreshold) }
    function Ttl(): Time { Max(1, softBanTtlSeconds) * MICROS_PER_SECOND }
    function Decay(): int { Max(1, successDecay) }
    function SourceThreshold(): int { Max(1, sourceFailureThreshold) }
    function Cooldown(): Time { Max(1, sourceCooldownSeconds) * MICROS_PER_SECOND }
    function Attempts(): int { Max(1, replenishAttempts) }
  }

  /** What is remembered about one proxy. */
  datatype Record = Record(
    failures: nat,
    lastType: Option<FailureType>,
    lastFailedAt: Option<Time>,
    softBanUntil: Option<Time>,
    hardBanned: bool)

  const CLEAN := Record(0, None, None, None, false)

  /** What is remembered about the page the proxies are collected from. */
  datatype Source = Source(consecutiveFailures: nat, cooldownUntil: Option<Time>)

  const FRESH_SOURCE := Source(0, None)

  type Tally = map<FailureType, nat>

  function Count(t: Tally, kind: FailureType): nat {
    if kind in t then t[kind] else 0
  }

  function Total(t: Tally): nat {
    Count(t, Blocked) + Count(t, Network) + Count(t, Ssl) + Count(t, Server) + Count(t, Unknown)
  }

  function Bumped(t: Tally, kind: FailureType): Tally {
    t[kind := Count(t, kind) + 1]
  }

  /** `order` lists the keys of `records` in insertion order, as a Python dictionary keeps them. */
  datatype Pool = Pool(
    queue: seq<Proxy>,
    members: set<Proxy>,
    order: seq<Proxy>,
    records: map<Proxy, Record>,
    lifetime: Tally,
    batch: Tally,
    source: Source)

  const EMPTY := Pool([], {}, [], map[], map[], map[], FRESH_SOURCE)

  // ---------- one proxy's record ----------

  predicate ActiveSoftBan(r: Record, now: Time) {
    r.softBanUntil.Some? && r.softBanUntil.value > now
  }

  predicate Usable(r: Record, now: Time) {
    !r.hardBanned && !ActiveSoftBan(r, now)
  }

  function Released(r: Record, now: Time): Record {
    if r.softBanUntil.Some? && r.softBanUntil.value <= now then r.(softBanUntil := None) else r
  }

  function Failed(cfg: Settings, r: Record, kind: FailureType, at: Time): Record {
    var n := r.failures + 1;
    if n >= cfg.HardThreshold() then Record(n, Some(kind), Some(at), None, true)
    else if n >= cfg.SoftThreshold() then Record(n, Some(kind), Some(at), Some(at + cfg.Ttl()), r.hardBanned)
    else Record(n, Some(kind), Some(at), r.softBanUntil, r.hardBanned)
  }

  function Succeeded(cfg: Settings, r: Record): Record {
    if r.hardBanned then r else
    var n := Max(0, r.failures - cfg.Decay());
    var ban := if n < cfg.SoftThreshold() then None else r.softBanUntil;
    if n == 0 then Record(0, None, None, ban, false) else r.(failures := n, softBanUntil := ban)
  }

  predicate Targeted(r: Record, kinds: set<FailureType>) {
    r.lastType.Some? && r.lastType.value in kinds
  }

  // ---------- the pool ----------

  function RecordOf(p: Pool, u: Proxy): Record {
    if u in p.records then p.records[u] else CLEAN
  }

  function Put(p: Pool, u: Proxy, r: Record): Pool {
    p.(order := if u in p.records then p.order else p.order + [u], records := p.records[u := r])
  }

  function Ensured(p: Pool, u: Proxy): Pool {
    if u in p.records then p else Put(p, u, CLEAN)
  }

  function Without(p: Pool, u: Proxy): Pool {
    if u !in p.members then p else p.(members := p.members - {u}, queue := Removed(p.queue, u))
  }

  predicate Admissible(p: Pool, u: Proxy) {
    !RecordOf(p, u).hardBanned && u !in p.members
  }

  function Register(p: Pool, u: Proxy): Pool {
    var q := Ensured(p, u);
    if Admissible(p, u) then q.(queue := q.queue + [u], members := q.members + {u}) else q
  }

  /** The counters hear of a failure, and a proxy that has reached the hard threshold leaves the line. */
  function Charge(cfg: Settings, p: Pool, u: Proxy, kind: FailureType): Pool {
    var q := p.(lifetime := Bumped(p.lifetime, kind), batch := Bumped(p.batch, kind));
    if RecordOf(p, u).failures >= cfg.HardThreshold() then Without(q, u) else q
  }

  function Fail(cfg: Settings, p: Pool, u: Proxy, kind: FailureType, at: Time): Pool {
    Charge(cfg, Put(p, u, Failed(cfg, RecordOf(p, u), kind, at)), u, kind)
  }

  function Succeed(cfg: Settings, p: Pool, u: Proxy): Pool {
    Put(p, u, Succeeded(cfg, RecordOf(p, u)))
  }

  function Release(p: Pool, now: Time): Pool {
    p.(records := map u | u in p.records :: Released(p.records[u], now))
  }

  /** The position of the first proxy in line that may be handed out at `now`, or the length of the line. */
  function FirstUsable(queue: seq<Proxy>, records: map<Proxy, Record>, now: Time): (i: nat)
    ensures i <= |queue|
  {
    if queue == [] || (queue[0] in records && Usable(records[queue[0]], now)) then 0
    else 1 + FirstUsable(queue[1..], records, now)
  }

  /** Hand out the first usable proxy and move it, with everything that was passed over, to the back. */
  function Next(p: Pool, now: Time): (Pool, Option<Proxy>) {
    if p.queue == [] then (p, None) else
    var q := Release(p, now);
    var i := FirstUsable(q.queue, q.records, now);
    if i == |q.queue| then (q, None)
    else (q.(queue := q.queue[i + 1..] + q.queue[..i + 1]), Some(q.queue[i]))
  }

  /** The proxies a rehabilitation puts back in line: targeted, and not in line already. */
  function Returning(p: Pool, keys: seq<Proxy>, kinds: set<FailureType>): seq<Proxy> {
    if keys == [] then [] else
    var u := keys[|keys| - 1];
    Returning(p, keys[..|keys| - 1], kinds) +
    (if Targeted(RecordOf(p, u), kinds) && u !in p.members then [u] else [])
  }

  function Rehabilitate(p: Pool, kinds: set<FailureType>): Pool {
    var back := Returning(p, p.order, kinds);
    p.(records := map u | u in p.records :: if Targeted(p.records[u], kinds) then CLEAN else p.records[u],
       queue := p.queue + back,
       members := p.members + set u | u in back)
  }

  function Reset(p: Pool, clearHistory: bool): Pool {
    if clearHistory then EMPTY else p.(queue := [], members := {})
  }

  // ---------- collecting new proxies ----------

  /** One row of the source page: the proxy, and what its health check would answer, and when. */
  datatype Candidate = Candidate(url: Proxy, healthy: bool, checkedAt: Time)

  /** What the request for the source page came to. */
  datatype Reply = SourceError | Listing(candidates: seq<Candidate>)

  datatype Verdict = Added | Unhealthy | Existing | HardBanned

  function Judge(p: Pool, c: Candidate): Verdict {
    if RecordOf(p, c.url).hardBanned then HardBanned
    else if c.url in p.members then Existing
    else if !c.healthy then Unhealthy
    else Added
  }

  function Admit(cfg: Settings, p: Pool, c: Candidate): Pool {
    match Judge(p, c)
    case HardBanned => Ensured(p, c.url)
    case Existing => Ensured(p, c.url)
    case Unhealthy => Fail(cfg, Ensured(p, c.url), c.url, Network, c.checkedAt)
    case Added => Register(p, c.url)
  }

  datatype Intake = Intake(pool: Pool, added: nat, unhealthy: nat, existing: nat, banned: nat)

  function Counted(i: Intake, v: Verdict): Intake {
    match v
    case Added => i.(added := i.added + 1)
    case Unhealthy => i.(unhealthy := i.unhealthy + 1)
    case Existing => i.(existing := i.existing + 1)
    case HardBanned => i.(banned := i.banned + 1)
  }

  function AdmitAll(cfg: Settings, p: Pool, cs: seq<Candidate>): Intake {
    if cs == [] then Intake(p, 0, 0, 0, 0) else
    var before := AdmitAll(cfg, p, cs[..|cs| - 1]);
    var c := cs[|cs| - 1];
    Counted(before, Judge(before.pool, c)).(pool := Admit(cfg, before.pool, c))
  }

  predicate OnCooldown(s: Source, now: Time) {
    s.cooldownUntil.Some? && s.cooldownUntil.value > now
  }

  function SourceFailed(cfg: Settings, s: Source, now: Time): Source {
    if s.consecutiveFailures + 1 >= cfg.SourceThreshold() then Source(0, Some(now + cfg.Cooldown()))
    else s.(consecutiveFailures := s.consecutiveFailures + 1)
  }

  /** The pool after working through a reply, before the source itself is judged. */
  function Taken(cfg: Settings, p: Pool, reply: Reply): Intake {
    if reply.SourceError? then Intake(p, 0, 0, 0, 0) else AdmitAll(cfg, p, reply.candidates)
  }

  function Fetch(cfg: Settings, p: Pool, startedAt: Time, reply: Reply, finishedAt: Time): Pool {
    if OnCooldown(p.source, startedAt) then p else
    var intake := Taken(cfg, p, reply);
    intake.pool.(source := if intake.added > 0 then FRESH_SOURCE
                           else SourceFailed(cfg, intake.pool.source, finishedAt))
  }

  // ---------- what is reported ----------

  function ActiveSet(p: Pool, now: Time): set<Proxy> {
    set u | u in p.members && Usable(RecordOf(p, u), now)
  }

  function SoftBannedSet(p: Pool, now: Time): set<Proxy> {
    set u | u in p.records && !p.records[u].hardBanned && ActiveSoftBan(p.records[u], now)
  }

  predicate Expired(r: Record, now: Time) {
    r.softBanUntil.Some? && r.softBanUntil.value <= now
  }

  /** The proxies whose soft ban is still set although its time is over. */
  function ExpiredSet(p: Pool, now: Time): set<Proxy> {
    set u | u in p.records && Expired(p.records[u], now)
  }

  function HardBannedSet(p: Pool): set<Proxy> {
    set u | u in p.records && p.records[u].hardBanned
  }

  function Rate(t: Tally, kind: FailureType): real {
    if Total(t) == 0 then 0.0 else Count(t, kind) as real / Total(t) as real
  }
}
