/**
 * The `POST /api/leaderboard-upsert` edge handler: the whole leaderboard is
 * one key-value entry whose value is a map from user name to best record.
 * The handler reads it, max-merges the submitted record into the entry of
 * the submitted name and writes the whole map back.
 */
module LeaderboardUpsert {
  import opened Common

  /** A user's stored record; a field may be missing. */
  datatype Entry = Entry(bestPoints: Option<int>, bestStreak: Option<int>)

  type Users = map<string, Entry>

  /** The parsed JSON body `{ name, bestPoints, bestStreak }`, whose fields may be missing. */
  datatype Body = Body(name: Option<string>, bestPoints: Option<int>, bestStreak: Option<int>)

  /** A request: its HTTP method and its body, None when the body is not JSON or is null. */
  datatype Request = Request(httpMethod: string, body: Option<Body>)

  /** What a response carries: plain text, a JSON error, or the JSON success object. */
  datatype Payload = Text(text: string) | ErrorJson(error: string) | OkJson(users: Users)

  datatype Response = Response(status: int, payload: Payload)

  /** A request sent to the key-value store, in the order sent. */
  datatype KvCall = Get | Set(users: Users)

  /** `name` after `const { name } = body || {}`; None when missing or empty (`!name`). */
  function NameOf(req: Request): (n: Option<string>)
    ensures n.Some? <==> req.body.Some? && req.body.value.name.Some? && req.body.value.name.value != ""
    ensures n.Some? ==> n == req.body.value.name && n.value != ""
  {
    if req.body.Some? && req.body.value.name.Some? && req.body.value.name.value != ""
    then req.body.value.name
    else None
  }

  /** `bestPoints = 0` as defaulted by the destructuring and `|| 0`. */
  function PointsOf(req: Request): int
  {
    if req.body.Some? then OrZero(req.body.value.bestPoints) else 0
  }

  /** `bestStreak = 0` as defaulted by the destructuring and `|| 0`. */
  function StreakOf(req: Request): int
  {
    if req.body.Some? then OrZero(req.body.value.bestStreak) else 0
  }

  /**
   * How the store answers the read: 200 with the value as `result` (null for
   * a missing key), 404 for a missing key, or another error status.
   */
  datatype GetStatus = Found | NotFound | Failed

  /**
   * The store's answer to the read. `getFails` stands for an error status
   * from the store (a rejected `fetch` is not modelled); `missingAs404` says whether the store signals a
   * missing key by 404 rather than by a null `result`.
   */
  function GetStatusOf(stored: Option<Users>, getFails: bool, missingAs404: bool): (st: GetStatus)
    ensures st == Failed <==> getFails
    ensures st == NotFound <==> !getFails && stored.None? && missingAs404
  {
    if getFails then Failed
    else if stored.None? && missingAs404 then NotFound
    else Found
  }

  /** `data.users` after the read as written: the stored map when `get.ok` and a value was found, else empty. */
  function ReadUsers(stored: Option<Users>, st: GetStatus): Users
  {
    if st == Found && stored.Some? then stored.value else map[]
  }

  /** What a read that did not fail yields: the stored map, or the empty map for a missing key, however signalled. */
  function StoredOrEmpty(stored: Option<Users>): Users
  {
    if stored.Some? then stored.value else map[]
  }

  /** The per-field max of an existing entry (zeros when absent) and the submitted values. */
  function Merged(current: Option<Entry>, points: int, streak: int): (e: Entry)
    ensures e.bestPoints.Some? && e.bestStreak.Some?
    ensures var old_ := if current.Some? then OrZero(current.value.bestPoints) else 0;
      old_ <= e.bestPoints.value && points <= e.bestPoints.value
      && (e.bestPoints.value == old_ || e.bestPoints.value == points)
    ensures var old_ := if current.Some? then OrZero(current.value.bestStreak) else 0;
      old_ <= e.bestStreak.value && streak <= e.bestStreak.value
      && (e.bestStreak.value == old_ || e.bestStreak.value == streak)
  {
    var cur := if current.Some? then current.value else Entry(Some(0), Some(0));
    Entry(Some(Max(OrZero(cur.bestPoints), points)), Some(Max(OrZero(cur.bestStreak), streak)))
  }

  /** `data.users[name] = {...}`: only the entry of `name` is added or replaced. */
  function MergeUser(users: Users, name: string, points: int, streak: int): (r: Users)
    ensures r.Keys == users.Keys + {name}
    ensures forall n :: n in users && n != name ==> r[n] == users[n]
    ensures r[name] == Merged(if name in users then Some(users[name]) else None, points, streak)
  {
    users[name := Merged(if name in users then Some(users[name]) else None, points, streak)]
  }

  /** Repeating an upsert gives the map a single upsert gives. */
  lemma MergeUserIdempotent(users: Users, name: string, points: int, streak: int)
    ensures MergeUser(MergeUser(users, name, points, streak), name, points, streak)
         == MergeUser(users, name, points, streak)
  {
    var once := MergeUser(users, name, points, streak);
    assert Merged(Some(once[name]), points, streak) == once[name];
  }

  /** Two upserts give the same map in either order, for the same user or two different ones. */
  lemma MergeUserCommutes(users: Users, n1: string, p1: int, s1: int, n2: string, p2: int, s2: int)
    ensures MergeUser(MergeUser(users, n1, p1, s1), n2, p2, s2)
         == MergeUser(MergeUser(users, n2, p2, s2), n1, p1, s1)
  {
    var a := MergeUser(MergeUser(users, n1, p1, s1), n2, p2, s2);
    var b := MergeUser(MergeUser(users, n2, p2, s2), n1, p1, s1);
    assert a.Keys == b.Keys;
    forall n | n in a ensures a[n] == b[n] {
      if n == n1 || n == n2 {
        var e1 := a[n].bestPoints.value;
        var e2 := b[n].bestPoints.value;
        assert e1 == e2;
      }
    }
  }

  /** A user's stored points, 0 when the user or the field is absent. */
  function PointsIn(users: Users, name: string): int
  {
    if name in users then OrZero(users[name].bestPoints) else 0
  }

  /** A user's stored streak, 0 when the user or the field is absent. */
  function StreakIn(users: Users, name: string): int
  {
    if name in users then OrZero(users[name].bestStreak) else 0
  }

  /** One accepted request, reduced to what the merge uses. */
  datatype Submission = Submission(name: string, points: int, streak: int)

  /** The map after a series of successful upserts, oldest first. */
  function MergeAll(users: Users, subs: seq<Submission>): Users
    decreases |subs|
  {
    if subs == [] then users
    else MergeAll(MergeUser(users, subs[0].name, subs[0].points, subs[0].streak), subs[1..])
  }

  /**
   * Stored values are running maxima: after any series of upserts no
   * user's points or streak is lower than before, no user disappears, and
   * every submitted value is covered by its user's entry; each stored
   * value is the user's earlier value or one of its submitted values.
   */
  lemma {:induction false} MergeAllKeepsMaxima(users: Users, subs: seq<Submission>)
    ensures users.Keys <= MergeAll(users, subs).Keys
    ensures forall n :: PointsIn(users, n) <= PointsIn(MergeAll(users, subs), n)
    ensures forall n :: StreakIn(users, n) <= StreakIn(MergeAll(users, subs), n)
    ensures forall k :: 0 <= k < |subs| ==>
      && subs[k].name in MergeAll(users, subs)
      && subs[k].points <= PointsIn(MergeAll(users, subs), subs[k].name)
      && subs[k].streak <= StreakIn(MergeAll(users, subs), subs[k].name)
    ensures forall n :: n in MergeAll(users, subs) ==>
      PointsIn(MergeAll(users, subs), n) == PointsIn(users, n) ||
      exists k :: 0 <= k < |subs| && subs[k].name == n && subs[k].points == PointsIn(MergeAll(users, subs), n)
    ensures forall n :: n in MergeAll(users, subs) ==>
      StreakIn(MergeAll(users, subs), n) == StreakIn(users, n) ||
      exists k :: 0 <= k < |subs| && subs[k].name == n && subs[k].streak == StreakIn(MergeAll(users, subs), n)
    decreases |subs|
  {
    if subs != [] {
      var s := subs[0];
      var next := MergeUser(users, s.name, s.points, s.streak);
      MergeAllKeepsMaxima(next, subs[1..]);
      var after := MergeAll(users, subs);
      assert after == MergeAll(next, subs[1..]);
      forall n ensures PointsIn(users, n) <= PointsIn(next, n) && StreakIn(users, n) <= StreakIn(next, n) {
      }
      forall k | 0 <= k < |subs|
        ensures subs[k].name in after
        ensures subs[k].points <= PointsIn(after, subs[k].name)
        ensures subs[k].streak <= StreakIn(after, subs[k].name)
      {
        if k > 0 {
          assert subs[k] == subs[1..][k - 1];
        }
      }
      forall n | n in after
        ensures PointsIn(after, n) == PointsIn(users, n) ||
          exists k :: 0 <= k < |subs| && subs[k].name == n && subs[k].points == PointsIn(after, n)
        ensures StreakIn(after, n) == StreakIn(users, n) ||
          exists k :: 0 <= k < |subs| && subs[k].name == n && subs[k].streak == StreakIn(after, n)
      {
        if PointsIn(after, n) != PointsIn(next, n) {
          var j :| 0 <= j < |subs[1..]| && subs[1..][j].name == n && subs[1..][j].points == PointsIn(after, n);
          assert subs[j + 1] == subs[1..][j];
        } else if PointsIn(next, n) != PointsIn(users, n) {
          assert subs[0].name == n && subs[0].points == PointsIn(after, n);
        }
        if StreakIn(after, n) != StreakIn(next, n) {
          var j :| 0 <= j < |subs[1..]| && subs[1..][j].name == n && subs[1..][j].streak == StreakIn(after, n);
          assert subs[j + 1] == subs[1..][j];
        } else if StreakIn(next, n) != StreakIn(users, n) {
          assert subs[0].name == n && subs[0].streak == StreakIn(after, n);
        }
      }
    }
  }

  /**
   * The as-written handler, after a failed read, writes a map holding the
   * submitted user alone: every other stored user is dropped.
   */
  lemma ReadFailureErasesOthers(stored: Option<Users>, name: string, points: int, streak: int)
    ensures MergeUser(ReadUsers(stored, Failed), name, points, streak).Keys == {name}
  {
  }

  /**
   * A read that did not fail gives the stored map, or the empty map for a
   * missing key whether the store answers 404 or a null `result`, and the
   * merge into it keeps every other stored user's entry.
   */
  lemma CheckedReadKeepsOthers(stored: Option<Users>, missingAs404: bool, name: string, points: int, streak: int)
    ensures GetStatusOf(stored, false, missingAs404) != Failed
    ensures stored.None? ==> ReadUsers(stored, GetStatusOf(stored, false, missingAs404)) == map[]
    ensures stored.Some? ==> ReadUsers(stored, GetStatusOf(stored, false, missingAs404)) == stored.value
    ensures stored.Some? ==> forall n :: n in stored.value && n != name ==>
      var after := MergeUser(StoredOrEmpty(stored), name, points, streak);
      n in after && after[n] == stored.value[n]
  {
  }

  /** The key-value store holding the `leaderboard:v1` entry. */
  class Kv {
    /** The value of `leaderboard:v1` (its `users` map), None while the key is absent or null. */
    var value: Option<Users>
    /** Every request sent so far. */
    ghost var calls: seq<KvCall>

    constructor (initial: Option<Users>)
      ensures value == initial && calls == []
    {
      value := initial;
      calls := [];
    }

    /** `GET /get/leaderboard:v1`, answered as `GetStatusOf` says; `users` is `data.users` as written. */
    method Read(getFails: bool, missingAs404: bool) returns (st: GetStatus, users: Users)
      modifies this`calls
      ensures calls == old(calls) + [Get]
      ensures st == GetStatusOf(value, getFails, missingAs404)
      ensures users == ReadUsers(value, st)
    {
      calls := calls + [Get];
      st := GetStatusOf(value, getFails, missingAs404);
      users := map[];
      if st == Found && value.Some? {
        users := value.value;
      }
    }

    /** `POST /set/leaderboard:v1`; a failed write leaves the value as it was. */
    method Write(users: Users, ok: bool)
      modifies this
      ensures calls == old(calls) + [Set(users)]
      ensures value == if ok then Some(users) else old(value)
    {
      calls := calls + [Set(users)];
      if ok {
        value := Some(users);
      }
    }

    /**
     * The handler as written: 405 for a method other than POST and 400 for a
     * missing name, both without touching the store; otherwise the stored map
     * (empty when missing, null or unreadable) with the name's entry
     * max-merged is written back, answered by 200 with that map or by 500.
     */
    method Handler(req: Request, getFails: bool, missingAs404: bool, setOk: bool) returns (resp: Response)
      modifies this
      ensures req.httpMethod != "POST" ==>
        resp == Response(405, Text("Method Not Allowed")) && value == old(value) && calls == old(calls)
      ensures req.httpMethod == "POST" && NameOf(req).None? ==>
        resp == Response(400, ErrorJson("name required")) && value == old(value) && calls == old(calls)
      ensures req.httpMethod == "POST" && NameOf(req).Some? ==>
        var st := GetStatusOf(old(value), getFails, missingAs404);
        var users := MergeUser(ReadUsers(old(value), st), NameOf(req).value, PointsOf(req), StreakOf(req));
        && calls == old(calls) + [Get, Set(users)]
        && (setOk ==> resp == Response(200, OkJson(users)) && value == Some(users))
        && (!setOk ==> resp == Response(500, ErrorJson("kv set failed")) && value == old(value))
    {
      if req.httpMethod != "POST" {
        return Response(405, Text("Method Not Allowed"));
      }
      var name := NameOf(req);
      if name.None? {
        return Response(400, ErrorJson("name required"));
      }
      var st, users := Read(getFails, missingAs404);
      users := MergeUser(users, name.value, PointsOf(req), StreakOf(req));
      Write(users, setOk);
      if !setOk {
        return Response(500, ErrorJson("kv set failed"));
      }
      return Response(200, OkJson(users));
    }

    /**
     * The handler with a failed read answered by 500 before anything is
     * written: whatever error status the store answers, no entry of another
     * user is lost or changed.
     */
    method HandlerCheckedRead(req: Request, getFails: bool, missingAs404: bool, setOk: bool) returns (resp: Response)
      modifies this
      ensures req.httpMethod != "POST" ==>
        resp == Response(405, Text("Method Not Allowed")) && value == old(value) && calls == old(calls)
      ensures req.httpMethod == "POST" && NameOf(req).None? ==>
        resp == Response(400, ErrorJson("name required")) && value == old(value) && calls == old(calls)
      ensures req.httpMethod == "POST" && NameOf(req).Some? && getFails ==>
        resp == Response(500, ErrorJson("kv get failed")) && value == old(value) && calls == old(calls) + [Get]
      ensures req.httpMethod == "POST" && NameOf(req).Some? && !getFails ==>
        var users := MergeUser(StoredOrEmpty(old(value)), NameOf(req).value, PointsOf(req), StreakOf(req));
        && calls == old(calls) + [Get, Set(users)]
        && (setOk ==> resp == Response(200, OkJson(users)) && value == Some(users))
        && (!setOk ==> resp == Response(500, ErrorJson("kv set failed")) && value == old(value))
      ensures old(value).Some? ==>
        && value.Some?
        && forall n :: n in old(value).value && (NameOf(req).None? || n != NameOf(req).value) ==>
             n in value.value && value.value[n] == old(value).value[n]
    {
      if req.httpMethod != "POST" {
        return Response(405, Text("Method Not Allowed"));
      }
      var name := NameOf(req);
      if name.None? {
        return Response(400, ErrorJson("name required"));
      }
      var st, users := Read(getFails, missingAs404);
      if st == Failed {
        return Response(500, ErrorJson("kv get failed"));
      }
      // Past this point a 404 has been read like a null `result`: the empty map.
      users := MergeUser(users, name.value, PointsOf(req), StreakOf(req));
      Write(users, setOk);
      if !setOk {
        return Response(500, ErrorJson("kv set failed"));
      }
      return Response(200, OkJson(users));
    }
  }

  /** A client: on an empty store that answers 404 for the missing key, the checked handler stores the first entry. */
  method FirstUpsertOnMissingKey()
  {
    var kv := new Kv(None);
    var req := Request("POST", Some(Body(Some("bo"), Some(10), Some(1))));
    var resp := kv.HandlerCheckedRead(req, false, true, true);
    assert resp.status == 200;
    assert kv.value == Some(map["bo" := Entry(Some(10), Some(1))]);
  }
}
