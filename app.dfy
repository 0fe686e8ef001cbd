/**
 * The quiz session of the single-page app: a shuffled deck of questions, the
 * current index, the user's selection, the answer/review phase, the seen and
 * correct counters, and the persisted list of missed questions that is played
 * again once the deck runs out.
 */
module App {
  import opened Common

  type Label = string

  /** A question of the bundled deck: its prompt, its (label, text) choices and its correct labels. */
  datatype Question = Question(q: string, choices: seq<(Label, string)>, answers: seq<Label>)

  /** "answer" while the user picks labels, "review" once the pick was sent. */
  datatype Phase = Answer | Review

  // ---------------------------------------------------------------------
  // Derived values of the current question
  // ---------------------------------------------------------------------

  /** `cur?.answers || []`: the correct labels of the current question, none without one. */
  function AnswersOf(cur: Option<Question>): seq<Label>
  {
    if cur.Some? then cur.value.answers else []
  }

  /** `answers.length > 1`: the question asks for several labels. */
  predicate IsMulti(cur: Option<Question>)
  {
    |AnswersOf(cur)| > 1
  }

  /** `answers.length || 1`: how many labels may be selected at once. */
  function MaxSelectable(cur: Option<Question>): (n: nat)
    ensures 1 <= n && |AnswersOf(cur)| <= n
    ensures IsMulti(cur) ==> n == |AnswersOf(cur)|
    ensures !IsMulti(cur) ==> n == 1
  {
    if |AnswersOf(cur)| == 0 then 1 else |AnswersOf(cur)|
  }

  /** `new Set(answers)`. */
  function AnswerSet(answers: seq<Label>): set<Label>
  {
    set x | x in answers
  }

  // ---------------------------------------------------------------------
  // Answer check
  // ---------------------------------------------------------------------

  lemma SubsetOfSameSize<T>(a: set<T>, b: set<T>)
    requires a <= b && |a| == |b|
    ensures a == b
  {
    assert b == a + (b - a);
    assert a * (b - a) == {};
    assert |b - a| == 0;
  }

  /** Set equality decided by comparing sizes, then looking up every element of `a` in `b`. */
  method EqSets<T>(a: set<T>, b: set<T>) returns (r: bool)
    ensures r <==> a == b
  {
    if |a| != |b| {
      return false;
    }
    var rest := a;
    while rest != {}
      invariant rest <= a
      invariant forall v :: v in a && v !in rest ==> v in b
      decreases |rest|
    {
      var v :| v in rest;
      if v !in b {
        return false;
      }
      rest := rest - {v};
    }
    SubsetOfSameSize(a, b);
    return true;
  }

  /**
   * The verdict of `submit`: the selection equals the set of correct labels,
   * or the question lists no correct label at all.
   */
  predicate Verdict(chosen: set<Label>, answers: seq<Label>)
  {
    chosen == AnswerSet(answers) || |answers| == 0
  }

  /**
   * The verdict ignores order and repetition of the correct labels, gives no
   * partial credit, and accepts anything on a question without correct labels.
   */
  lemma VerdictMeaning(chosen: set<Label>, answers: seq<Label>)
    ensures |answers| == 0 ==> Verdict(chosen, answers)
    ensures |answers| > 0 ==>
      (Verdict(chosen, answers) <==>
        (forall x :: x in chosen ==> x in answers) && (forall k :: 0 <= k < |answers| ==> answers[k] in chosen))
  {
    if |answers| > 0 && (forall x :: x in chosen ==> x in answers) && (forall k :: 0 <= k < |answers| ==> answers[k] in chosen) {
      forall x | x in AnswerSet(answers) ensures x in chosen {
        var k :| 0 <= k < |answers| && answers[k] == x;
      }
    }
  }

  // ---------------------------------------------------------------------
  // Shuffle
  // ---------------------------------------------------------------------

  /**
   * A source of `Math.random()` draws: `rand(j)` is the draw made when the
   * shuffle loop is at position `j`. Every draw lies in [0, 1).
   */
  ghost predicate IsRandomSource(rand: int -> real)
  {
    forall n :: 0.0 <= rand(n) < 1.0
  }

  lemma ScaledDrawBounds(r: real, n: nat)
    requires 0.0 <= r < 1.0 && 0 < n
    ensures 0 <= (r * (n as real)).Floor < n
  {
    var x := r * (n as real);
    assert 0.0 <= x;
    assert (n as real) - x == (1.0 - r) * (n as real);
    assert 0.0 < (1.0 - r) * (n as real);
  }

  /** `Math.floor(r * (j + 1))`: the partner position drawn for position `j`. */
  function SwapIndex(r: real, j: nat): (k: nat)
    requires 0.0 <= r < 1.0
    ensures k <= j
  {
    ScaledDrawBounds(r, j + 1);
    (r * ((j + 1) as real)).Floor
  }

  /** `[arr[j], arr[k]] = [arr[k], arr[j]]` on a sequence. */
  function Swap<T>(s: seq<T>, j: nat, k: nat): seq<T>
    requires j < |s| && k < |s|
  {
    s[j := s[k]][k := s[j]]
  }

  lemma SwapPermutes<T>(s: seq<T>, j: nat, k: nat)
    requires j < |s| && k < |s|
    ensures |Swap(s, j, k)| == |s|
    ensures multiset(Swap(s, j, k)) == multiset(s)
  {
  }

  /** The sequence after the loop iterations at positions `j, j - 1, ..., 1`. */
  function ShuffleFrom<T>(s: seq<T>, rand: int -> real, j: int): seq<T>
    requires IsRandomSource(rand)
    requires j < |s|
    decreases j
  {
    if j <= 0 then s
    else ShuffleFrom(Swap(s, j, SwapIndex(rand(j), j)), rand, j - 1)
  }

  /** The result of `shuffle` on `s` for the draws of `rand`. */
  function FisherYates<T>(s: seq<T>, rand: int -> real): seq<T>
    requires IsRandomSource(rand)
  {
    ShuffleFrom(s, rand, |s| - 1)
  }

  lemma {:induction false} ShuffleFromPermutes<T>(s: seq<T>, rand: int -> real, j: int)
    requires IsRandomSource(rand)
    requires j < |s|
    ensures |ShuffleFrom(s, rand, j)| == |s|
    ensures multiset(ShuffleFrom(s, rand, j)) == multiset(s)
    decreases j
  {
    if j > 0 {
      var k := SwapIndex(rand(j), j);
      SwapPermutes(s, j, k);
      ShuffleFromPermutes(Swap(s, j, k), rand, j - 1);
    }
  }

  /** Whatever the draws, the shuffle is a permutation of its input. */
  lemma FisherYatesPermutes<T>(s: seq<T>, rand: int -> real)
    requires IsRandomSource(rand)
    ensures |FisherYates(s, rand)| == |s|
    ensures multiset(FisherYates(s, rand)) == multiset(s)
  {
    ShuffleFromPermutes(s, rand, |s| - 1);
  }

  /** The in-place descending swap loop of `shuffle`. */
  method Shuffle<T>(arr: array<T>, rand: int -> real)
    requires IsRandomSource(rand)
    modifies arr
    ensures arr[..] == FisherYates(old(arr[..]), rand)
    ensures multiset(arr[..]) == multiset(old(arr[..]))
  {
    var j := arr.Length - 1;
    while j > 0
      invariant -1 <= j < arr.Length
      invariant ShuffleFrom(arr[..], rand, j) == FisherYates(old(arr[..]), rand)
    {
      var k := SwapIndex(rand(j), j);
      ghost var before := arr[..];
      var t := arr[j];
      arr[j] := arr[k];
      arr[k] := t;
      assert arr[..] == Swap(before, j, k);
      j := j - 1;
    }
    FisherYatesPermutes(old(arr[..]), rand);
  }

  // ---------------------------------------------------------------------
  // The session
  // ---------------------------------------------------------------------

  class Session {
    var deck: seq<Question>
    var i: nat
    var seen: nat
    var correct: nat
    var chosen: set<Label>
    var phase: Phase
    /** The persisted list of missed questions (the `sap_basis_duo_wrong` entry of the device store). */
    var wrong: seq<Question>

    /** `deck[i]`, absent once the index is past the deck (and before a deck is loaded). */
    function Cur(): (c: Option<Question>)
      reads this
      ensures c.Some? <==> i < |deck|
      ensures c.Some? ==> c.value == deck[i]
    {
      if i < |deck| then Some(deck[i]) else None
    }

    /**
     * The session invariant: the index points into a loaded deck, no more
     * answers are counted correct than were seen, and the selection never
     * holds more labels than the current question allows.
     */
    ghost predicate Valid()
      reads this
    {
      && (if deck == [] then i == 0 && chosen == {} else i < |deck|)
      && correct <= seen
      && |chosen| <= MaxSelectable(Cur())
    }

    /**
     * In a valid session the guards `!cur` bite only before a deck is loaded:
     * a loaded deck always has a current question, and it is one of the deck's.
     */
    lemma LoadedDeckHasCurrent()
      requires Valid()
      ensures Cur().Some? <==> deck != []
      ensures Cur().Some? ==> Cur().value in deck
    {
    }

    /** The initial state: no deck yet, and the missed questions persisted by an earlier visit. */
    constructor (storedWrong: seq<Question>)
      ensures Valid()
      ensures deck == [] && i == 0 && seen == 0 && correct == 0
      ensures chosen == {} && phase == Answer && wrong == storedWrong
    {
      deck := [];
      i := 0;
      seen := 0;
      correct := 0;
      chosen := {};
      phase := Answer;
      wrong := storedWrong;
    }

    /** The mount effect: copy the bundled deck (none if it is not an array), shuffle it and load it. */
    method Preload(bundled: Option<seq<Question>>, rand: int -> real)
      requires Valid() && deck == []
      requires IsRandomSource(rand)
      modifies this`deck
      ensures Valid()
      ensures deck == FisherYates(if bundled.Some? then bundled.value else [], rand)
      ensures multiset(deck) == multiset(if bundled.Some? then bundled.value else [])
    {
      var initial := if bundled.Some? then bundled.value else [];
      var arr := new Question[|initial|](k requires 0 <= k < |initial| => initial[k]);
      assert arr[..] == initial;
      Shuffle(arr, rand);
      deck := arr[..];
    }

    /** Click on a choice: deselect it, replace a single answer, or add while below capacity. */
    method ToggleChoice(letter: Label)
      requires Valid()
      modifies this`chosen
      ensures Valid()
      ensures old(Cur()).None? || phase != Answer ==> chosen == old(chosen)
      ensures Cur().Some? && phase == Answer && letter in old(chosen) ==>
        chosen == old(chosen) - {letter}
      ensures Cur().Some? && phase == Answer && letter !in old(chosen) && !IsMulti(Cur()) ==>
        chosen == {letter}
      ensures Cur().Some? && phase == Answer && letter !in old(chosen) && IsMulti(Cur()) ==>
        chosen == if |old(chosen)| < MaxSelectable(Cur()) then old(chosen) + {letter} else old(chosen)
      ensures |chosen| <= MaxSelectable(Cur())
      ensures !IsMulti(Cur()) ==> |chosen| <= 1
    {
      if Cur().None? || phase != Answer {
        return;
      }
      var next := chosen;
      if letter in next {
        next := next - {letter};
      } else if !IsMulti(Cur()) {
        next := {letter};
      } else if |next| < MaxSelectable(Cur()) {
        next := next + {letter};
      }
      chosen := next;
    }

    /** Send the selection: count it, judge it, enter review and remember a miss. */
    method Submit()
      requires Valid()
      modifies this`seen, this`correct, this`phase, this`wrong
      ensures Valid()
      ensures Cur().None? || chosen == {} ==>
        seen == old(seen) && correct == old(correct) && phase == old(phase) && wrong == old(wrong)
      ensures Cur().Some? && chosen != {} ==>
        && seen == old(seen) + 1
        && phase == Review
        && (Verdict(chosen, Cur().value.answers) ==> correct == old(correct) + 1 && wrong == old(wrong))
        && (!Verdict(chosen, Cur().value.answers) ==> correct == old(correct) && wrong == old(wrong) + [Cur().value])
    {
      if Cur().None? || |chosen| == 0 {
        return;
      }
      var cur := Cur().value;
      var same := EqSets(chosen, AnswerSet(cur.answers));
      var ok := same || |cur.answers| == 0;
      seen := seen + 1;
      if ok {
        correct := correct + 1;
      }
      phase := Review;
      if !ok {
        wrong := wrong + [cur];
      }
    }

    /**
     * Move on: to the next question, or at the end of the deck to a shuffled
     * deck of the missed questions, or, with none missed, report the end
     * (`finished`) and stay put.
     */
    method Next(rand: int -> real) returns (finished: bool)
      requires Valid()
      requires IsRandomSource(rand)
      modifies this`deck, this`i, this`chosen, this`phase, this`wrong
      ensures Valid()
      ensures finished <==> old(i) < |old(deck)| <= old(i) + 1 && old(wrong) == []
      ensures old(i) >= |old(deck)| || finished ==>
        deck == old(deck) && i == old(i) && chosen == old(chosen) && phase == old(phase) && wrong == old(wrong)
      ensures old(i) + 1 < |old(deck)| ==>
        deck == old(deck) && i == old(i) + 1 && chosen == {} && phase == Answer && wrong == old(wrong)
      ensures old(i) < |old(deck)| <= old(i) + 1 && old(wrong) != [] ==>
        && deck == FisherYates(old(wrong), rand)
        && multiset(deck) == multiset(old(wrong)) && |deck| == |old(wrong)|
        && wrong == [] && i == 0 && chosen == {} && phase == Answer
    {
      finished := false;
      if Cur().None? {
        return;
      }
      var nextIndex := i + 1;
      if nextIndex >= |deck| {
        if |wrong| > 0 {
          var missed := wrong;
          var arr := new Question[|missed|](k requires 0 <= k < |missed| => missed[k]);
          assert arr[..] == missed;
          Shuffle(arr, rand);
          deck := arr[..];
          wrong := [];
          nextIndex := 0;
        } else {
          finished := true;
          return;
        }
      }
      i := nextIndex;
      chosen := {};
      phase := Answer;
    }
  }
}
