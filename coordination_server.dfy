/**
 * The coordination server that the AMAN clients share (server/src/server.ts
 * and its plain-JavaScript twin server/simple-server.js): version
 * comparison and the compatibility status, ICAO validation, the master-role
 * lease per airport with its heartbeats, client activity tracking, the two
 * periodic cleanups and the cached latest client version.
 *
 * Times are milliseconds since the epoch (`Date.now()`), passed in as `now`.
 * A request header is an `Option<string>`; JavaScript treats a missing header
 * and an empty one alike as false (`Present`).
 */
module CoordinationServer {
  import opened Wrappers
  import Strings
  import Decimal
  import Sorting

  // ---------------------------------------------------------------------
  // Versions: `compareVersions`
  // ---------------------------------------------------------------------

  predicate IsDot(c: char)
  {
    c == '.'
  }

  /**
   * `Number(part) || 0`: the decimal value of a part made of digits, and 0
   * for an empty part or one that is not a number.
   */
  function PartValue(part: string): nat
  {
    if part != [] && Decimal.AllDigits(part) then Decimal.Value(part) else 0
  }

  /** `v.split('.').map(Number)`, with `|| 0` already applied. */
  function Parts(v: string): (r: seq<nat>)
    ensures |r| == |Strings.SplitWhere(v, IsDot)| && |r| >= 1
  {
    Sorting.Map(Strings.SplitWhere(v, IsDot), PartValue)
  }

  /** `parts[i] || 0`: a missing part counts as 0. */
  function At(parts: seq<nat>, i: nat): nat
  {
    if i < |parts| then parts[i] else 0
  }

  function Width(pa: seq<nat>, pb: seq<nat>): nat
  {
    if |pa| >= |pb| then |pa| else |pb|
  }

  /** The loop of `compareVersions` from part `i` on. */
  function CompareFrom(pa: seq<nat>, pb: seq<nat>, i: nat): (r: int)
    ensures -1 <= r <= 1
    decreases Width(pa, pb) - i
  {
    if i >= Width(pa, pb) then 0
    else if At(pa, i) > At(pb, i) then 1
    else if At(pa, i) < At(pb, i) then -1
    else CompareFrom(pa, pb, i + 1)
  }

  /** What `compareVersions(a, b)` returns. */
  function VersionOrder(a: string, b: string): int
  {
    CompareFrom(Parts(a), Parts(b), 0)
  }

  /** Two part lists agree once both are padded with zeros. */
  ghost predicate SameFrom(pa: seq<nat>, pb: seq<nat>, i: nat)
  {
    forall k: nat | k >= i :: At(pa, k) == At(pb, k)
  }

  /** The comparison is 0 exactly when the zero-padded parts agree. */
  lemma {:induction false} CompareZeroIffSame(pa: seq<nat>, pb: seq<nat>, i: nat)
    ensures CompareFrom(pa, pb, i) == 0 <==> SameFrom(pa, pb, i)
    decreases Width(pa, pb) - i
  {
    if i < Width(pa, pb) {
      CompareZeroIffSame(pa, pb, i + 1);
      if SameFrom(pa, pb, i) {
        assert At(pa, i) == At(pb, i);
      }
      if CompareFrom(pa, pb, i) == 0 {
        forall k: nat | k >= i
          ensures At(pa, k) == At(pb, k)
        {
          if k > i {
            assert k >= i + 1;
          }
        }
      }
    } else {
      forall k: nat | k >= i
        ensures At(pa, k) == At(pb, k)
      {
        assert At(pa, k) == 0 == At(pb, k);
      }
    }
  }

  /** Swapping the arguments negates the result. */
  lemma {:induction false} CompareAntisymmetric(pa: seq<nat>, pb: seq<nat>, i: nat)
    ensures CompareFrom(pa, pb, i) == -CompareFrom(pb, pa, i)
    decreases Width(pa, pb) - i
  {
    assert Width(pa, pb) == Width(pb, pa);
    if i < Width(pa, pb) && At(pa, i) == At(pb, i) {
      CompareAntisymmetric(pa, pb, i + 1);
    }
  }

  function Width3(pa: seq<nat>, pb: seq<nat>, pc: seq<nat>): nat
  {
    if Width(pa, pb) >= |pc| then Width(pa, pb) else |pc|
  }

  /** At or below: the part-wise step used by transitivity. */
  lemma {:induction false} NotAboveAt(pa: seq<nat>, pb: seq<nat>, i: nat)
    requires CompareFrom(pa, pb, i) <= 0
    ensures At(pa, i) <= At(pb, i)
    ensures At(pa, i) == At(pb, i) ==> CompareFrom(pa, pb, i + 1) <= 0
  {
    if i >= Width(pa, pb) {
      assert At(pa, i) == 0 == At(pb, i);
    }
  }

  /** "Not newer than" is transitive. */
  lemma {:induction false} CompareTransitive(pa: seq<nat>, pb: seq<nat>, pc: seq<nat>, i: nat)
    requires CompareFrom(pa, pb, i) <= 0 && CompareFrom(pb, pc, i) <= 0
    ensures CompareFrom(pa, pc, i) <= 0
    decreases Width3(pa, pb, pc) - i
  {
    if i < Width(pa, pc) {
      NotAboveAt(pa, pb, i);
      NotAboveAt(pb, pc, i);
      if At(pa, i) == At(pc, i) {
        CompareTransitive(pa, pb, pc, i + 1);
      }
    }
  }

  /** `compareVersions` orders versions: antisymmetric and transitive. */
  lemma {:induction false} VersionOrderIsPreorder(a: string, b: string, c: string)
    ensures VersionOrder(a, b) == -VersionOrder(b, a)
    ensures VersionOrder(a, b) <= 0 && VersionOrder(b, c) <= 0 ==> VersionOrder(a, c) <= 0
    ensures VersionOrder(a, b) == 0 <==> SameFrom(Parts(a), Parts(b), 0)
  {
    CompareAntisymmetric(Parts(a), Parts(b), 0);
    if VersionOrder(a, b) <= 0 && VersionOrder(b, c) <= 0 {
      CompareTransitive(Parts(a), Parts(b), Parts(c), 0);
    }
    CompareZeroIffSame(Parts(a), Parts(b), 0);
  }

  /** A trailing ".0" makes no difference: "1.2" equals "1.2.0". */
  lemma {:induction false} TrailingZeroPart(v: string)
    ensures VersionOrder(v, v + ".0") == 0
  {
    Strings.SplitConcat(v, '.', "0", IsDot);
    assert v + "." + "0" == v + ".0";
    Strings.SplitNoSeparator("0", IsDot);
    assert Decimal.Value("0") == 0;
    var pv, pw := Parts(v), Parts(v + ".0");
    assert pw == pv + [0];
    forall k: nat
      ensures At(pv, k) == At(pw, k)
    {
    }
    CompareZeroIffSame(pv, pw, 0);
  }

  /** `compareVersions`, with its loop over the parts. */
  method CompareVersions(a: string, b: string) returns (r: int)
    ensures r == VersionOrder(a, b)
  {
    var partsA := Parts(a);
    var partsB := Parts(b);
    var i := 0;
    while i < Width(partsA, partsB)
      invariant CompareFrom(partsA, partsB, i) == VersionOrder(a, b)
    {
      var numA := At(partsA, i);
      var numB := At(partsB, i);
      if numA > numB {
        return 1;
      }
      if numA < numB {
        return -1;
      }
      i := i + 1;
    }
    return 0;
  }

  // ---------------------------------------------------------------------
  // ICAO codes: `isValidICAO`
  // ---------------------------------------------------------------------

  /** `toUpperCase` on one character (ASCII letters only). */
  function UpperChar(c: char): char
  {
    if 'a' <= c <= 'z' then (c as int - 32) as char else c
  }

  function ToUpper(s: string): (r: string)
    ensures |r| == |s| && forall i | 0 <= i < |s| :: r[i] == UpperChar(s[i])
  {
    seq(|s|, i requires 0 <= i < |s| => UpperChar(s[i]))
  }

  predicate IsUpperLetter(c: char)
  {
    'A' <= c <= 'Z'
  }

  predicate IsLetter(c: char)
  {
    'A' <= c <= 'Z' || 'a' <= c <= 'z'
  }

  /**
   * `/^[A-Z]{4}$/.test(icao.toUpperCase())`: exactly four letters, in either
   * case.
   */
  function IsValidIcao(icao: string): (r: bool)
    ensures r <==> |icao| == 4 && forall i | 0 <= i < 4 :: IsLetter(icao[i])
  {
    var upper := ToUpper(icao);
    |upper| == 4 && forall i | 0 <= i < 4 :: IsUpperLetter(upper[i])
  }

  /**
   * The handlers upper-case the path parameter and use that as the key: a
   * valid key is four capital letters, and validity does not depend on case.
   */
  lemma {:induction false} ValidIcaoKey(icao: string)
    ensures IsValidIcao(ToUpper(icao)) == IsValidIcao(icao)
    ensures IsValidIcao(icao) ==> forall i | 0 <= i < 4 :: IsUpperLetter(ToUpper(icao)[i])
    ensures ToUpper(ToUpper(icao)) == ToUpper(icao)
  {
  }

  // ---------------------------------------------------------------------
  // Master-role leases
  // ---------------------------------------------------------------------

  /** A master is refused a takeover for this long after its last heartbeat. */
  const LeaseMs := 30000
  /** `cleanupOldHeartbeats` drops heartbeats older than this. */
  const HeartbeatTtlMs := 60000
  /** `cleanupOldClientActivity` drops activity older than this. */
  const ActivityTtlMs := 300000

  /**
   * The three records behind the master role: airport -> master session,
   * session -> last heartbeat, session -> start time as master.
   */
  datatype Leases = Leases(
    masterRoles: map<string, string>,
    heartbeats: map<string, int>,
    sessionStartTimes: map<string, int>)

  /** Session -> last activity and session -> first activity, for all clients. */
  datatype Activity = Activity(clientActivity: map<string, int>, clientStartTimes: map<string, int>)

  /** A header that JavaScript treats as true: given and not empty. */
  predicate Present(h: Option<string>)
  {
    h.Some? && h.value != ""
  }

  /**
   * `masterRoles[icao]` is truthy and its heartbeat is less than 30 s old.
   * A master without a heartbeat entry compares as NaN, which is never less.
   */
  predicate ActiveMaster(l: Leases, icao: string, now: int)
  {
    icao in l.masterRoles && l.masterRoles[icao] != "" &&
    l.masterRoles[icao] in l.heartbeats && now - l.heartbeats[l.masterRoles[icao]] < LeaseMs
  }

  /**
   * `if (!m[key]) m[key] = now`: record a first time, once. A stored 0 is
   * falsy and is overwritten.
   */
  function MarkStart(m: map<string, int>, key: string, now: int): (r: map<string, int>)
    ensures key in r && r.Keys == m.Keys + {key}
    ensures key in m && m[key] != 0 ==> r == m
    ensures forall k | k in m && k != key :: r[k] == m[k]
  {
    if key in m && m[key] != 0 then m else m[key := now]
  }

  /** The state after `acquireMasterRole` succeeds. */
  function Installed(l: Leases, icao: string, session: string, now: int): Leases
  {
    Leases(l.masterRoles[icao := session], l.heartbeats[session := now],
      MarkStart(l.sessionStartTimes, session, now))
  }

  /**
   * After a successful acquisition the caller holds an active lease for the
   * next 30 s, whatever it held before, and no other airport changes hands.
   */
  lemma {:induction false} InstalledHoldsLease(l: Leases, icao: string, session: string, now: int, later: int)
    requires session != "" && now <= later < now + LeaseMs
    ensures var l' := Installed(l, icao, session, now);
      ActiveMaster(l', icao, later) && l'.masterRoles[icao] == session &&
      (forall other | other in l.masterRoles && other != icao ::
        other in l'.masterRoles && l'.masterRoles[other] == l.masterRoles[other])
  {
  }

  /**
   * No takeover while the lease is live: for 30 s after the master's last
   * heartbeat every acquisition is refused, the master's own included.
   */
  lemma {:induction false} NoTakeoverWhileActive(l: Leases, icao: string, beat: int, now: int)
    requires icao in l.masterRoles && l.masterRoles[icao] != ""
    requires l.masterRoles[icao] in l.heartbeats && l.heartbeats[l.masterRoles[icao]] == beat
    requires beat <= now < beat + LeaseMs
    ensures ActiveMaster(l, icao, now)
  {
  }

  /** The header names the session stored as the airport's master. */
  predicate CallerIsMaster(l: Leases, icao: string, session: Option<string>)
  {
    Present(session) && icao in l.masterRoles && l.masterRoles[icao] == session.value
  }

  /** The GET master-role handler's refresh: only the current master's heartbeat moves. */
  function Refreshed(l: Leases, icao: string, session: Option<string>, now: int): (r: Leases)
  {
    if CallerIsMaster(l, icao, session) then
      Leases(l.masterRoles, l.heartbeats[session.value := now],
        MarkStart(l.sessionStartTimes, session.value, now))
    else l
  }

  /**
   * A refresh by the master renews its lease for 30 s; a refresh by anybody
   * else changes nothing, and no refresh ever changes who is master.
   */
  lemma {:induction false} RefreshOnlyByMaster(l: Leases, icao: string, session: Option<string>, now: int)
    ensures var r := Refreshed(l, icao, session, now);
      r.masterRoles == l.masterRoles &&
      (CallerIsMaster(l, icao, session) ==> ActiveMaster(r, icao, now)) &&
      (!CallerIsMaster(l, icao, session) ==> r == l)
  {
  }

  /** The replies of the master-role routes. */
  datatype RoleReply =
    | InvalidIcao                                               // 400
    | MissingSession                                            // 400
    | RoleStatus(isMaster: bool, currentMaster: Option<string>) // GET, 200
    | Acquired                                                  // POST, 200
    | AlreadyHeld                                               // POST, 409
    | NoMaster                                                  // DELETE, 404
    | NotMaster(holder: string)                                 // DELETE, 403
    | Released                                                  // DELETE, 200

  function StatusCode(r: RoleReply): (code: nat)
    ensures code in {200, 400, 403, 404, 409}
  {
    match r
    case InvalidIcao => 400
    case MissingSession => 400
    case RoleStatus(_, _) => 200
    case Acquired => 200
    case AlreadyHeld => 409
    case NoMaster => 404
    case NotMaster(_) => 403
    case Released => 200
  }

  /** The DELETE master-role handler's decision and its effect on the leases. */
  function Release(l: Leases, icao: string, session: string): (r: (RoleReply, Leases))
  {
    if icao !in l.masterRoles || l.masterRoles[icao] == "" then (NoMaster, l)
    else if l.masterRoles[icao] != session then (NotMaster(l.masterRoles[icao]), l)
    else (Released, Leases(l.masterRoles - {icao}, l.heartbeats - {session},
      l.sessionStartTimes - {session}))
  }

  /**
   * 404 without a master, 403 for another session, and otherwise the role,
   * the heartbeat and the start time are gone while the other airports keep
   * their masters.
   */
  lemma {:induction false} ReleaseSpec(l: Leases, icao: string, session: string)
    ensures var (reply, l') := Release(l, icao, session);
      (reply == NoMaster <==> icao !in l.masterRoles || l.masterRoles[icao] == "") &&
      (reply.NotMaster? <==> icao in l.masterRoles && l.masterRoles[icao] !in {"", session}) &&
      (reply != Released ==> l' == l) &&
      (reply == Released ==>
        icao !in l'.masterRoles && session !in l'.heartbeats && session !in l'.sessionStartTimes &&
        forall other | other in l.masterRoles && other != icao ::
          other in l'.masterRoles && l'.masterRoles[other] == l.masterRoles[other])
  {
  }

  /**
   * Releasing one airport deletes the session's only heartbeat, so any other
   * airport the same session masters keeps it as master without a heartbeat:
   * that lease can be taken over at once and no cleanup ever removes it.
   */
  lemma {:induction false} ReleaseOrphansOtherAirports(l: Leases, icao: string, other: string, session: string, now: int)
    requires icao != other && session != ""
    requires icao in l.masterRoles && other in l.masterRoles
    requires l.masterRoles[icao] == session && l.masterRoles[other] == session
    ensures var l' := Release(l, icao, session).1;
      other in l'.masterRoles && l'.masterRoles[other] == session &&
      !ActiveMaster(l', other, now) &&
      other in ExpireLeases(l', now).masterRoles && ExpireLeases(l', now).masterRoles[other] == session
  {
  }

  // ---------------------------------------------------------------------
  // The cleanups
  // ---------------------------------------------------------------------

  /** The sessions whose time stamp is more than `limit` ms old. */
  function Stale(stamps: map<string, int>, now: int, limit: int): set<string>
  {
    set s | s in stamps && now - stamps[s] > limit
  }

  /** The airports whose master is not one of `sessions`. */
  function DropMasters(roles: map<string, string>, sessions: set<string>): (r: map<string, string>)
  {
    map icao | icao in roles && roles[icao] !in sessions :: roles[icao]
  }

  /** `cleanupOldHeartbeats` as a whole. */
  function ExpireLeases(l: Leases, now: int): Leases
  {
    var gone := Stale(l.heartbeats, now, HeartbeatTtlMs);
    Leases(DropMasters(l.masterRoles, gone), l.heartbeats - gone, l.sessionStartTimes - gone)
  }

  /**
   * After the cleanup every heartbeat is at most a minute old, no airport
   * names a dropped session as master, and every live lease survives.
   */
  lemma {:induction false} ExpireLeasesSpec(l: Leases, now: int, icao: string)
    ensures var l' := ExpireLeases(l, now);
      (forall s | s in l'.heartbeats :: s in l.heartbeats && l'.heartbeats[s] == l.heartbeats[s] &&
        now - l'.heartbeats[s] <= HeartbeatTtlMs) &&
      (forall s | s in l.heartbeats && now - l.heartbeats[s] <= HeartbeatTtlMs :: s in l'.heartbeats) &&
      (forall a | a in l'.masterRoles :: a in l.masterRoles && l'.masterRoles[a] == l.masterRoles[a] &&
        (l'.masterRoles[a] in l.heartbeats ==> l'.masterRoles[a] in l'.heartbeats)) &&
      (ActiveMaster(l, icao, now) ==> ActiveMaster(l', icao, now))
  {
  }

  /** `cleanupOldClientActivity` as a whole. */
  function ExpireActivity(a: Activity, now: int): Activity
  {
    var gone := Stale(a.clientActivity, now, ActivityTtlMs);
    Activity(a.clientActivity - gone, a.clientStartTimes - gone)
  }

  /** After the cleanup every remaining client was active in the last 5 minutes. */
  lemma {:induction false} ExpireActivitySpec(a: Activity, now: int)
    ensures var a' := ExpireActivity(a, now);
      (forall s | s in a'.clientActivity :: now - a'.clientActivity[s] <= ActivityTtlMs) &&
      (forall s | s in a.clientActivity :: s in a'.clientActivity <==> now - a.clientActivity[s] <= ActivityTtlMs) &&
      (forall s | s in a'.clientStartTimes :: s in a.clientStartTimes &&
        a'.clientStartTimes[s] == a.clientStartTimes[s])
  {
  }

  /** The leases once all the stale sessions are dropped. */
  lemma {:induction false} ExpireLeasesBy(l: Leases, now: int, gone: set<string>, dropped: set<string>)
    requires gone == Stale(l.heartbeats, now, HeartbeatTtlMs) && dropped == gone
    ensures ExpireLeases(l, now) == Leases(DropMasters(l.masterRoles, dropped), l.heartbeats - dropped, l.sessionStartTimes - dropped)
  {
  }

  /** The activity once all the stale clients are dropped. */
  lemma {:induction false} ExpireActivityBy(a: Activity, now: int, gone: set<string>, dropped: set<string>)
    requires gone == Stale(a.clientActivity, now, ActivityTtlMs) && dropped == gone
    ensures ExpireActivity(a, now) == Activity(a.clientActivity - dropped, a.clientStartTimes - dropped)
  {
  }

  lemma {:induction false} NothingPending<T>(gone: set<T>, pending: set<T>)
    requires pending == {}
    ensures gone - pending == gone
  {
  }

  lemma {:induction false} DropStep<V>(m: map<string, V>, removed: set<string>, id: string)
    ensures (m - removed) - {id} == m - (removed + {id})
  {
  }

  lemma {:induction false} VisitStep(gone: set<string>, pending: set<string>, id: string)
    requires id in pending
    ensures id in gone ==> gone - (pending - {id}) == (gone - pending) + {id}
    ensures id !in gone ==> gone - (pending - {id}) == gone - pending
  {
  }

  lemma {:induction false} DropMastersStep(roles: map<string, string>, done: set<string>, s: string)
    ensures DropMasters(DropMasters(roles, done), {s}) == DropMasters(roles, done + {s})
  {
  }

  /** `updateClientActivity`: a present session's activity is now, its start time kept. */
  function Touched(a: Activity, session: Option<string>, now: int): Activity
  {
    if Present(session) then
      Activity(a.clientActivity[session.value := now], MarkStart(a.clientStartTimes, session.value, now))
    else a
  }

  // ---------------------------------------------------------------------
  // The latest client version and the compatibility status
  // ---------------------------------------------------------------------

  /** A successful fetch older than this is fetched again. */
  const VersionTtlMs := 600000

  /** `{ version, timestamp }`; `version` is null until a fetch succeeds. */
  datatype VersionCache = VersionCache(version: Option<string>, timestamp: int)

  /** The cache is used as is: it holds a version less than 10 minutes old. */
  predicate Fresh(c: VersionCache, now: int)
  {
    Present(c.version) && now - c.timestamp < VersionTtlMs
  }

  /**
   * `getLatestVersionCached`: the cache when fresh, otherwise the result of
   * the fetch when it gave a version, otherwise the old cache. `fetched` is
   * what the GitHub request would return; it is consulted only when the
   * cache is not fresh.
   */
  function CachedVersion(c: VersionCache, now: int, fetched: Option<string>): VersionCache
  {
    if Fresh(c, now) then c
    else if Present(fetched) then VersionCache(fetched, now)
    else c
  }

  /**
   * A fresh cache is returned without a fetch; a failed fetch keeps the old
   * version; once a version is known one is always returned.
   */
  lemma {:induction false} CachedVersionSpec(c: VersionCache, now: int, fetched: Option<string>)
    ensures var c' := CachedVersion(c, now, fetched);
      (Fresh(c, now) ==> c' == c) &&
      (!Fresh(c, now) && Present(fetched) ==> c'.version == fetched && Fresh(c', now)) &&
      (!Present(fetched) ==> c' == c) &&
      (Present(c.version) ==> Present(c'.version))
  {
  }

  /** `tag.startsWith('v') ? tag.slice(1) : tag`. */
  function TagVersion(tag: string): (v: string)
    ensures tag != [] && tag[0] == 'v' ==> "v" + v == tag
    ensures !(tag != [] && tag[0] == 'v') ==> v == tag
  {
    if tag != [] && tag[0] == 'v' then tag[1..] else tag
  }

  datatype Compat = UpdateRequired | UpdateRecommended | Ok

  /** The oldest client the server accepts. */
  const MinClientVersion := "0.3.1"

  /** `x-client-version`, "0.0.0" when missing or empty. */
  function ClientVersion(header: Option<string>): string
  {
    if Present(header) then header.value else "0.0.0"
  }

  /** The status of the compat route against the minimum and the latest version. */
  function CompatStatus(client: string, minimum: string, latest: string): Compat
  {
    if VersionOrder(client, minimum) < 0 then UpdateRequired
    else if VersionOrder(client, latest) < 0 then UpdateRecommended
    else Ok
  }

  function Rank(c: Compat): nat
  {
    match c
    case UpdateRequired => 0
    case UpdateRecommended => 1
    case Ok => 2
  }

  /**
   * A newer client never gets a worse status, and `Ok` means the client is
   * at least the minimum and at least the latest version.
   */
  lemma {:induction false} CompatMonotone(older: string, newer: string, minimum: string, latest: string)
    requires VersionOrder(older, newer) <= 0
    ensures Rank(CompatStatus(older, minimum, latest)) <= Rank(CompatStatus(newer, minimum, latest))
    ensures CompatStatus(newer, minimum, latest) == Ok ==>
      VersionOrder(newer, minimum) >= 0 && VersionOrder(newer, latest) >= 0
  {
    VersionOrderIsPreorder(older, newer, older);
    VersionOrderIsPreorder(minimum, older, newer);
    VersionOrderIsPreorder(latest, older, newer);
    VersionOrderIsPreorder(newer, minimum, older);
    VersionOrderIsPreorder(newer, latest, older);
  }

  /** The compat route's answer: 500 when no latest version is known. */
  datatype CompatReply = CompatFailed | CompatOk(latest: string, minimum: string, status: Compat)

  // ---------------------------------------------------------------------
  // The server's state and its routes
  // ---------------------------------------------------------------------

  class Server {
    var masterRoles: map<string, string>
    var heartbeats: map<string, int>
    var sessionStartTimes: map<string, int>
    var clientActivity: map<string, int>
    var clientStartTimes: map<string, int>
    var cache: VersionCache

    function LeaseState(): Leases
      reads this
    {
      Leases(masterRoles, heartbeats, sessionStartTimes)
    }

    function ActivityState(): Activity
      reads this
    {
      Activity(clientActivity, clientStartTimes)
    }

    /** No airport names the empty session: the routes refuse an empty header. */
    predicate Valid()
      reads this
    {
      forall icao | icao in masterRoles :: masterRoles[icao] != ""
    }

    constructor()
      ensures Valid()
      ensures LeaseState() == Leases(map[], map[], map[]) && ActivityState() == Activity(map[], map[])
      ensures cache == VersionCache(None, 0)
    {
      masterRoles, heartbeats, sessionStartTimes := map[], map[], map[];
      clientActivity, clientStartTimes := map[], map[];
      cache := VersionCache(None, 0);
    }

    /** `updateClientActivity` */
    method UpdateClientActivity(session: Option<string>, now: int)
      modifies this
      ensures ActivityState() == Touched(old(ActivityState()), session, now)
      ensures LeaseState() == old(LeaseState()) && cache == old(cache)
    {
      if Present(session) {
        var id := session.value;
        clientActivity := clientActivity[id := now];
        if !(id in clientStartTimes && clientStartTimes[id] != 0) {
          clientStartTimes := clientStartTimes[id := now];
        }
      }
    }

    /** `acquireMasterRole`: refused while an active master holds the airport. */
    method AcquireMasterRole(icao: string, session: string, now: int) returns (acquired: bool)
      modifies this
      ensures acquired == !ActiveMaster(old(LeaseState()), icao, now)
      ensures LeaseState() ==
        if acquired then Installed(old(LeaseState()), icao, session, now) else old(LeaseState())
      ensures ActivityState() == old(ActivityState()) && cache == old(cache)
    {
      if icao in masterRoles && masterRoles[icao] != "" {
        var currentMaster := masterRoles[icao];
        if currentMaster in heartbeats && now - heartbeats[currentMaster] < LeaseMs {
          return false;
        }
      }
      masterRoles := masterRoles[icao := session];
      heartbeats := heartbeats[session := now];
      if !(session in sessionStartTimes && sessionStartTimes[session] != 0) {
        sessionStartTimes := sessionStartTimes[session := now];
      }
      return true;
    }

    /** `updateHeartbeat` */
    method UpdateHeartbeat(session: string, now: int)
      modifies this
      ensures session != "" ==> (heartbeats == old(heartbeats)[session := now] &&
        sessionStartTimes == MarkStart(old(sessionStartTimes), session, now))
      ensures session == "" ==> heartbeats == old(heartbeats) && sessionStartTimes == old(sessionStartTimes)
      ensures masterRoles == old(masterRoles) && ActivityState() == old(ActivityState()) && cache == old(cache)
    {
      if session != "" {
        heartbeats := heartbeats[session := now];
        if !(session in sessionStartTimes && sessionStartTimes[session] != 0) {
          sessionStartTimes := sessionStartTimes[session := now];
        }
      }
    }

    /**
     * GET master-role. `isMaster` compares the stored master with the header
     * as JavaScript's `===` does, so with no header and no master it is true.
     */
    method GetMasterRole(icaoParam: string, session: Option<string>, now: int) returns (reply: RoleReply)
      requires Valid()
      modifies this
      ensures Valid()
      ensures var icao := ToUpper(icaoParam);
        if !IsValidIcao(icao) then
          reply == InvalidIcao && LeaseState() == old(LeaseState()) && ActivityState() == old(ActivityState())
        else
          var master := if icao in masterRoles then Some(masterRoles[icao]) else None;
          LeaseState() == Refreshed(old(LeaseState()), icao, session, now) &&
          ActivityState() == Touched(old(ActivityState()), session, now) &&
          reply == RoleStatus(master == session, master)
      ensures masterRoles == old(masterRoles) && cache == old(cache)
    {
      var icao := ToUpper(icaoParam);
      if !IsValidIcao(icao) {
        return InvalidIcao;
      }
      if Present(session) {
        UpdateClientActivity(session, now);
        if icao in masterRoles && masterRoles[icao] == session.value {
          UpdateHeartbeat(session.value, now);
        }
      }
      var master := if icao in masterRoles then Some(masterRoles[icao]) else None;
      reply := RoleStatus(master == session, master);
    }

    /** POST master-role: 400, 400, then 200 when acquired and 409 when held. */
    method PostMasterRole(icaoParam: string, session: Option<string>, now: int) returns (reply: RoleReply)
      requires Valid()
      modifies this
      ensures Valid()
      ensures var icao := ToUpper(icaoParam);
        if !IsValidIcao(icao) || !Present(session) then
          reply == (if !IsValidIcao(icao) then InvalidIcao else MissingSession) &&
          LeaseState() == old(LeaseState()) && ActivityState() == old(ActivityState())
        else
          ActivityState() == Touched(old(ActivityState()), session, now) &&
          (reply == Acquired <==> !ActiveMaster(old(LeaseState()), icao, now)) &&
          (reply == Acquired ==> LeaseState() == Installed(old(LeaseState()), icao, session.value, now)) &&
          (reply != Acquired ==> reply == AlreadyHeld && LeaseState() == old(LeaseState()))
      ensures cache == old(cache)
    {
      var icao := ToUpper(icaoParam);
      if !IsValidIcao(icao) {
        return InvalidIcao;
      }
      if !Present(session) {
        return MissingSession;
      }
      UpdateClientActivity(session, now);
      var acquired := AcquireMasterRole(icao, session.value, now);
      reply := if acquired then Acquired else AlreadyHeld;
    }

    /** DELETE master-role: 400, 400, then the decision of `Release`. */
    method DeleteMasterRole(icaoParam: string, session: Option<string>, now: int) returns (reply: RoleReply)
      requires Valid()
      modifies this
      ensures Valid()
      ensures var icao := ToUpper(icaoParam);
        if !IsValidIcao(icao) || !Present(session) then
          reply == (if !IsValidIcao(icao) then InvalidIcao else MissingSession) &&
          LeaseState() == old(LeaseState()) && ActivityState() == old(ActivityState())
        else
          ActivityState() == Touched(old(ActivityState()), session, now) &&
          (reply, LeaseState()) == Release(old(LeaseState()), icao, session.value)
      ensures cache == old(cache)
    {
      var icao := ToUpper(icaoParam);
      if !IsValidIcao(icao) {
        return InvalidIcao;
      }
      if !Present(session) {
        return MissingSession;
      }
      UpdateClientActivity(session, now);
      var id := session.value;
      if icao !in masterRoles || masterRoles[icao] == "" {
        return NoMaster;
      }
      if masterRoles[icao] != id {
        return NotMaster(masterRoles[icao]);
      }
      masterRoles := masterRoles - {icao};
      heartbeats := heartbeats - {id};
      sessionStartTimes := sessionStartTimes - {id};
      reply := Released;
    }

    /** The inner `forEach`: every airport mastered by `session` loses its master. */
    method DropRolesOf(session: string)
      modifies this`masterRoles
      ensures masterRoles == DropMasters(old(masterRoles), {session})
    {
      var pending := masterRoles.Keys;
      ghost var roles := masterRoles;
      while pending != {}
        invariant pending <= roles.Keys
        invariant masterRoles.Keys <= roles.Keys
        invariant forall a | a in roles && a !in pending ::
          (a in masterRoles <==> roles[a] != session)
        invariant forall a | a in pending :: a in masterRoles
        invariant forall a | a in masterRoles :: masterRoles[a] == roles[a]
        decreases |pending|
      {
        var icao :| icao in pending;
        if masterRoles[icao] == session {
          masterRoles := masterRoles - {icao};
        }
        pending := pending - {icao};
      }
    }

    /** `cleanupOldHeartbeats`, visiting the sessions one by one. */
    method CleanupOldHeartbeats(now: int)
      modifies this
      ensures LeaseState() == ExpireLeases(old(LeaseState()), now)
      ensures ActivityState() == old(ActivityState()) && cache == old(cache)
    {
      ghost var start := LeaseState();
      ghost var gone := Stale(heartbeats, now, HeartbeatTtlMs);
      var pending := heartbeats.Keys;
      while pending != {}
        invariant pending <= start.heartbeats.Keys
        invariant heartbeats == start.heartbeats - (gone - pending)
        invariant sessionStartTimes == start.sessionStartTimes - (gone - pending)
        invariant masterRoles == DropMasters(start.masterRoles, gone - pending)
        modifies this`heartbeats, this`sessionStartTimes, this`masterRoles
        decreases |pending|
      {
        var id :| id in pending;
        VisitSession(id, now, start, gone, pending);
        pending := pending - {id};
      }
      NothingPending(gone, pending);
      ExpireLeasesBy(start, now, gone, gone - pending);
      assert LeaseState() == ExpireLeases(start, now);
      assert clientActivity == old(clientActivity) && clientStartTimes == old(clientStartTimes);
    }

    /** One turn of the `cleanupOldHeartbeats` loop: the session `id` is dropped when its heartbeat is stale. */
    method VisitSession(id: string, now: int, ghost start: Leases, ghost gone: set<string>, ghost pending: set<string>)
      requires id in pending && pending <= start.heartbeats.Keys
      requires gone == Stale(start.heartbeats, now, HeartbeatTtlMs)
      requires heartbeats == start.heartbeats - (gone - pending)
      requires sessionStartTimes == start.sessionStartTimes - (gone - pending)
      requires masterRoles == DropMasters(start.masterRoles, gone - pending)
      modifies this`heartbeats, this`sessionStartTimes, this`masterRoles
      ensures heartbeats == start.heartbeats - (gone - (pending - {id}))
      ensures sessionStartTimes == start.sessionStartTimes - (gone - (pending - {id}))
      ensures masterRoles == DropMasters(start.masterRoles, gone - (pending - {id}))
    {
      VisitStep(gone, pending, id);
      if now - heartbeats[id] > HeartbeatTtlMs {
        heartbeats := heartbeats - {id};
        sessionStartTimes := sessionStartTimes - {id};
        DropRolesOf(id);
        DropStep(start.heartbeats, gone - pending, id);
        DropStep(start.sessionStartTimes, gone - pending, id);
        DropMastersStep(start.masterRoles, gone - pending, id);
      }
    }

    /** `cleanupOldClientActivity`, visiting the clients one by one. */
    method CleanupOldClientActivity(now: int)
      modifies this
      ensures ActivityState() == ExpireActivity(old(ActivityState()), now)
      ensures LeaseState() == old(LeaseState()) && cache == old(cache)
    {
      ghost var start := ActivityState();
      ghost var gone := Stale(clientActivity, now, ActivityTtlMs);
      var pending := clientActivity.Keys;
      while pending != {}
        invariant pending <= start.clientActivity.Keys
        invariant clientActivity == start.clientActivity - (gone - pending)
        invariant clientStartTimes == start.clientStartTimes - (gone - pending)
        modifies this`clientActivity, this`clientStartTimes
        decreases |pending|
      {
        var id :| id in pending;
        VisitClient(id, now, start, gone, pending);
        pending := pending - {id};
      }
      NothingPending(gone, pending);
      ExpireActivityBy(start, now, gone, gone - pending);
      assert ActivityState() == ExpireActivity(start, now);
    }

    /** One turn of the `cleanupOldClientActivity` loop: the client `id` is dropped when its activity is stale. */
    method VisitClient(id: string, now: int, ghost start: Activity, ghost gone: set<string>, ghost pending: set<string>)
      requires id in pending && pending <= start.clientActivity.Keys
      requires gone == Stale(start.clientActivity, now, ActivityTtlMs)
      requires clientActivity == start.clientActivity - (gone - pending)
      requires clientStartTimes == start.clientStartTimes - (gone - pending)
      modifies this`clientActivity, this`clientStartTimes
      ensures clientActivity == start.clientActivity - (gone - (pending - {id}))
      ensures clientStartTimes == start.clientStartTimes - (gone - (pending - {id}))
    {
      VisitStep(gone, pending, id);
      if now - clientActivity[id] > ActivityTtlMs {
        clientActivity := clientActivity - {id};
        clientStartTimes := clientStartTimes - {id};
        DropStep(start.clientActivity, gone - pending, id);
        DropStep(start.clientStartTimes, gone - pending, id);
      }
    }

    /** `getLatestVersionCached`; `fetched` is what the fetch would give. */
    method GetLatestVersionCached(now: int, fetched: Option<string>) returns (version: Option<string>)
      modifies this
      ensures cache == CachedVersion(old(cache), now, fetched) && version == cache.version
      ensures LeaseState() == old(LeaseState()) && ActivityState() == old(ActivityState())
    {
      if Present(cache.version) && now - cache.timestamp < VersionTtlMs {
        return cache.version;
      }
      if Present(fetched) {
        cache := VersionCache(fetched, now);
      }
      return cache.version;
    }

    /** GET compat: 500 without a latest version, else the status against 0.3.1. */
    method CompatRoute(clientHeader: Option<string>, now: int, fetched: Option<string>) returns (reply: CompatReply)
      modifies this
      ensures cache == CachedVersion(old(cache), now, fetched)
      ensures !Present(cache.version) ==> reply == CompatFailed
      ensures Present(cache.version) ==> reply == CompatOk(cache.version.value, MinClientVersion,
        CompatStatus(ClientVersion(clientHeader), MinClientVersion, cache.version.value))
      ensures LeaseState() == old(LeaseState()) && ActivityState() == old(ActivityState())
    {
      var client := ClientVersion(clientHeader);
      var latest := GetLatestVersionCached(now, fetched);
      if !Present(latest) {
        return CompatFailed;
      }
      var belowMinimum := CompareVersions(client, MinClientVersion);
      var belowLatest := CompareVersions(client, latest.value);
      var status := if belowMinimum < 0 then UpdateRequired
        else if belowLatest < 0 then UpdateRecommended
        else Ok;
      reply := CompatOk(latest.value, MinClientVersion, status);
    }
  }

  // ---------------------------------------------------------------------
  // simple-server.js: its compat route
  // ---------------------------------------------------------------------

  /** simple-server.js's minimum version, and its lower-case status words. */
  const SimpleMinClientVersion := "1.2.0"

  datatype SimpleCompatReply =
    | SimpleFailed                             // 500: no latest version
    | SimpleThrows                             // the handler throws before it answers
    | SimpleOk(latest: string, status: string) // "update-required" and so on

  /**
   * The compat route as simple-server.js writes it: it calls
   * `compareVersions`, which that file never defines, so once a latest
   * version is known the handler throws a ReferenceError instead of answering.
   */
  function SimpleCompatAsWritten(clientHeader: Option<string>, latest: Option<string>): SimpleCompatReply
  {
    if !Present(latest) then SimpleFailed else SimpleThrows
  }

  /** Whatever the client sends, the route as written never reports a status. */
  lemma {:induction false} SimpleCompatNeverAnswers(clientHeader: Option<string>, latest: Option<string>)
    ensures !SimpleCompatAsWritten(clientHeader, latest).SimpleOk?
    ensures Present(latest) ==> SimpleCompatAsWritten(clientHeader, latest) == SimpleThrows
  {
  }

  function SimpleStatusWord(c: Compat): string
  {
    match c
    case UpdateRequired => "update-required"
    case UpdateRecommended => "update-recommended"
    case Ok => "ok"
  }

  /** The route with `compareVersions` defined as in server.ts. */
  function SimpleCompat(clientHeader: Option<string>, latest: Option<string>): SimpleCompatReply
  {
    if !Present(latest) then SimpleFailed
    else SimpleOk(latest.value,
      SimpleStatusWord(CompatStatus(ClientVersion(clientHeader), SimpleMinClientVersion, latest.value)))
  }

  /**
   * With the comparison defined, a known latest version always gives an
   * answer, "ok" only for a client at least 1.2.0 and at least the latest,
   * and a newer client never gets a worse word.
   */
  lemma {:induction false} SimpleCompatAnswers(older: Option<string>, newer: Option<string>, latest: Option<string>)
    requires Present(latest)
    requires VersionOrder(ClientVersion(older), ClientVersion(newer)) <= 0
    ensures SimpleCompat(newer, latest).SimpleOk?
    ensures SimpleCompat(newer, latest).status == "ok" ==>
      VersionOrder(ClientVersion(newer), SimpleMinClientVersion) >= 0 &&
      VersionOrder(ClientVersion(newer), latest.value) >= 0
    ensures SimpleCompat(older, latest).status == "ok" ==> SimpleCompat(newer, latest).status == "ok"
    ensures SimpleCompat(newer, latest).status == "update-required" ==>
      SimpleCompat(older, latest).status == "update-required"
  {
    CompatMonotone(ClientVersion(older), ClientVersion(newer), SimpleMinClientVersion, latest.value);
  }
}
