/**
 * The best-record update against the remote `users` table: read the user's
 * row, keep the larger of the stored and the run's points and streak, and
 * upsert the row keyed by name.
 */
module Db {
  import opened Common

  /** A row of the `users` table; a column may be null. */
  datatype UserRow = UserRow(bestPoints: Option<int>, bestStreak: Option<int>, updatedAt: string)

  /** The record returned to the caller. */
  datatype Best = Best(bestPoints: int, bestStreak: int)

  /** The three exits by exception. */
  datatype DbError = NameRequired | SelectFailed | UpsertFailed

  /** A request sent to the table, in the order sent. */
  datatype Call = SelectCall(name: string) | UpsertCall(name: string, row: UserRow)

  /** `rows?.best_points ?? 0` */
  function CurrentPoints(row: Option<UserRow>): int
  {
    if row.Some? then OrZero(row.value.bestPoints) else 0
  }

  /** `rows?.best_streak ?? 0` */
  function CurrentStreak(row: Option<UserRow>): int
  {
    if row.Some? then OrZero(row.value.bestStreak) else 0
  }

  /**
   * The max-merge: each field is the larger of the stored value (0 when the
   * row or the column is absent) and the run's value (0 when absent).
   */
  function NextBest(row: Option<UserRow>, runPoints: Option<int>, runBestStreak: Option<int>): (b: Best)
    ensures CurrentPoints(row) <= b.bestPoints && OrZero(runPoints) <= b.bestPoints
    ensures b.bestPoints == CurrentPoints(row) || b.bestPoints == OrZero(runPoints)
    ensures CurrentStreak(row) <= b.bestStreak && OrZero(runBestStreak) <= b.bestStreak
    ensures b.bestStreak == CurrentStreak(row) || b.bestStreak == OrZero(runBestStreak)
  {
    Best(Max(CurrentPoints(row), OrZero(runPoints)), Max(CurrentStreak(row), OrZero(runBestStreak)))
  }

  /** The row the upsert writes for a merged record at time `now`. */
  function RowOf(b: Best, now: string): UserRow
  {
    UserRow(Some(b.bestPoints), Some(b.bestStreak), now)
  }

  /**
   * Merging again a run that is no better in either field gives back the
   * same record: the merge is idempotent, and a worse run never lowers it.
   */
  lemma NextBestAbsorbs(row: Option<UserRow>, p: Option<int>, s: Option<int>, p': Option<int>, s': Option<int>, now: string)
    requires OrZero(p') <= NextBest(row, p, s).bestPoints
    requires OrZero(s') <= NextBest(row, p, s).bestStreak
    ensures NextBest(Some(RowOf(NextBest(row, p, s), now)), p', s') == NextBest(row, p, s)
  {
  }

  /** Two runs merged one after the other give the same record in either order. */
  lemma NextBestCommutes(row: Option<UserRow>, p1: Option<int>, s1: Option<int>, p2: Option<int>, s2: Option<int>, t1: string, t2: string)
    ensures NextBest(Some(RowOf(NextBest(row, p1, s1), t1)), p2, s2)
         == NextBest(Some(RowOf(NextBest(row, p2, s2), t2)), p1, s1)
  {
  }

  /** A better run never yields a worse record. */
  lemma NextBestMonotone(row: Option<UserRow>, p1: Option<int>, s1: Option<int>, p2: Option<int>, s2: Option<int>)
    requires OrZero(p1) <= OrZero(p2) && OrZero(s1) <= OrZero(s2)
    ensures NextBest(row, p1, s1).bestPoints <= NextBest(row, p2, s2).bestPoints
    ensures NextBest(row, p1, s1).bestStreak <= NextBest(row, p2, s2).bestStreak
  {
  }

  /** The `users` table seen through the two requests the update sends. */
  class UsersTable {
    var rows: map<string, UserRow>
    /** Every request sent so far. */
    ghost var calls: seq<Call>

    constructor (initial: map<string, UserRow>)
      ensures rows == initial && calls == []
    {
      rows := initial;
      calls := [];
    }

    /** `select(...).eq("name", name).maybeSingle()`; `fails` stands for an error answer. */
    method Select(name: string, fails: bool) returns (r: Result<Option<UserRow>, DbError>)
      modifies this`calls
      ensures calls == old(calls) + [SelectCall(name)]
      ensures fails ==> r == Failure(SelectFailed)
      ensures !fails ==> r == Success(if name in rows then Some(rows[name]) else None)
    {
      calls := calls + [SelectCall(name)];
      if fails {
        return Failure(SelectFailed);
      }
      return Success(if name in rows then Some(rows[name]) else None);
    }

    /** `upsert(row, { onConflict: "name" })`; a failed write leaves the table as it was. */
    method Upsert(name: string, row: UserRow, fails: bool) returns (ok: bool)
      modifies this
      ensures calls == old(calls) + [UpsertCall(name, row)]
      ensures ok <==> !fails
      ensures rows == if fails then old(rows) else old(rows)[name := row]
    {
      calls := calls + [UpsertCall(name, row)];
      if fails {
        return false;
      }
      rows := rows[name := row];
      return true;
    }

    /**
     * `updateRecordIfBetter`: an empty name fails before any request, a failed
     * read fails before any write, a failed write fails after it; otherwise
     * the merged record is both written and returned.
     */
    method UpdateRecordIfBetter(name: string, runPoints: Option<int>, runBestStreak: Option<int>,
                                selectFails: bool, upsertFails: bool, now: string)
      returns (r: Result<Best, DbError>)
      modifies this
      ensures name == "" ==> r == Failure(NameRequired) && rows == old(rows) && calls == old(calls)
      ensures name != "" && selectFails ==>
        r == Failure(SelectFailed) && rows == old(rows) && calls == old(calls) + [SelectCall(name)]
      ensures name != "" && !selectFails ==>
        var best := NextBest(if name in old(rows) then Some(old(rows)[name]) else None, runPoints, runBestStreak);
        && calls == old(calls) + [SelectCall(name), UpsertCall(name, RowOf(best, now))]
        && (upsertFails ==> r == Failure(UpsertFailed) && rows == old(rows))
        && (!upsertFails ==> r == Success(best) && rows == old(rows)[name := RowOf(best, now)])
      ensures r.Success? ==> name in rows && rows[name] == RowOf(r.value, now)
      ensures r.Success? ==> forall n :: n in old(rows) && n != name ==> n in rows && rows[n] == old(rows)[n]
    {
      if name == "" {
        return Failure(NameRequired);
      }
      var sel := Select(name, selectFails);
      if sel.Failure? {
        return Failure(sel.error);
      }
      var best := NextBest(sel.value, runPoints, runBestStreak);
      var ok := Upsert(name, RowOf(best, now), upsertFails);
      if !ok {
        return Failure(UpsertFailed);
      }
      return Success(best);
    }
  }
}
