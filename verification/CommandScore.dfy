/** Fuzzy scoring of a command's text against what the user typed. */
module CommandScore {
  import opened Primitives

  const SCORE_CONTINUE_MATCH := 1.0
  const SCORE_SPACE_WORD_JUMP := 0.9
  const SCORE_NON_SPACE_WORD_JUMP := 0.8
  const SCORE_CHARACTER_JUMP := 0.17
  const SCORE_TRANSPOSITION := 0.1
  const PENALTY_SKIPPED := 0.999
  const PENALTY_CASE_MISMATCH := 0.9999
  const PENALTY_NOT_COMPLETE := 0.99

  /** The four strings a search reads; the lowered ones may be shorter than what they came from. */
  datatype Query = Query(text: string, abbr: string, lowerText: string, lowerAbbr: string)

  // ---- strings as the program reads them ----

  /** `charAt`: no character outside the string. */
  function CharAt(s: string, k: int): Option<char> {
    if 0 <= k < |s| then Some(s[k]) else None
  }

  predicate IsGap(c: char) {
    c in {'\\', '/', '_', '+', '.', '#', '"', '@', '[', '(', '{', '&'}
  }

  predicate IsSpace(c: char) {
    || c in {' ', '-', '\t', '\n', '\r', '\U{000B}', '\U{000C}', '\U{00A0}', '\U{1680}', '\U{2028}', '\U{2029}',
             '\U{202F}', '\U{205F}', '\U{3000}', '\U{FEFF}'}
    || '\U{2000}' <= c <= '\U{200A}'
  }

  function Count(s: string, counted: char -> bool): nat {
    if s == [] then 0 else Count(s[..|s| - 1], counted) + if counted(s[|s| - 1]) then 1 else 0
  }

  /** `slice` with bounds that may lie past the end. */
  function Slice(s: string, from: nat, to: nat): string {
    if from < to && from < |s| then s[from..if to < |s| then to else |s|] else []
  }

  /** `indexOf` from `from` on: -1 when the needle is nowhere, and never -1 for an empty needle. */
  function IndexOf(s: string, needle: Option<char>, from: nat): (index: int)
    ensures -1 <= index <= |s|
    ensures needle.None? ==> index == if from < |s| then from else |s|
    ensures needle.Some? && index >= 0 ==> from <= index < |s| && s[index] == needle.value
    ensures needle.Some? ==>
      forall k :: from <= k < (if index < 0 then |s| else index) ==> s[k] != needle.value
    decreases |s| - from
  {
    if needle.None? then (if from < |s| then from else |s|)
    else if from >= |s| then -1
    else if s[from] == needle.value then from
    else IndexOf(s, needle, from + 1)
  }

  function Pow(x: real, n: nat): (p: real)
    requires x > 0.0
    ensures p > 0.0
  {
    if n == 0 then 1.0 else x * Pow(x, n - 1)
  }

  // ---- what one match is worth ----

  /** What a match at `index` keeps of the score of the rest. */
  function Weigh(c: Query, stringIndex: nat, abbrIndex: nat, index: nat, score: real): real {
    var jumped := Jump(c, stringIndex, index, score);
    if CharAt(c.text, index) != CharAt(c.abbr, abbrIndex) then jumped * PENALTY_CASE_MISMATCH else jumped
  }

  function Jump(c: Query, stringIndex: nat, index: nat, score: real): real {
    if index == stringIndex then score * SCORE_CONTINUE_MATCH
    else
      var before := CharAt(c.text, index - 1);
      if before.Some? && IsGap(before.value) then
        Skipped(score * SCORE_NON_SPACE_WORD_JUMP, stringIndex, Count(Slice(c.text, stringIndex, index - 1), IsGap))
      else if before.Some? && IsSpace(before.value) then
        Skipped(score * SCORE_SPACE_WORD_JUMP, stringIndex, Count(Slice(c.text, stringIndex, index - 1), IsSpace))
      else Skipped(score * SCORE_CHARACTER_JUMP, stringIndex, index - stringIndex)
  }

  /** The penalty for what a jump passed over; the first jump pays none, and a jump back is paid for. */
  function Skipped(score: real, stringIndex: nat, skipped: int): real {
    if skipped == 0 || stringIndex == 0 then score
    else if skipped > 0 then score * Pow(PENALTY_SKIPPED, skipped)
    else score / Pow(PENALTY_SKIPPED, -skipped)
  }

  /** The abbreviation's next two letters may have been typed in the wrong order, or one typed twice. */
  predicate Transposes(c: Query, abbrIndex: nat, index: nat, score: real) {
    || (score < SCORE_TRANSPOSITION && CharAt(c.lowerText, index - 1) == CharAt(c.lowerAbbr, abbrIndex + 1))
    || Doubled(c, abbrIndex, index)
  }

  predicate Doubled(c: Query, abbrIndex: nat, index: nat) {
    && CharAt(c.lowerAbbr, abbrIndex + 1) == CharAt(c.lowerAbbr, abbrIndex)
    && CharAt(c.lowerText, index - 1) != CharAt(c.lowerAbbr, abbrIndex)
  }

  // ---- the search, call by call ----

  /** Scores already found, by place in the text and in the abbreviation. */
  type Table = map<(nat, nat), real>

  datatype Searched = Searched(score: real, table: Table)

  /**
    The search from `stringIndex` and `abbrIndex` on, branch by branch as it is written, with
    the scores in `table` memoized, as far as `fuel` nested calls and rounds take it; none when
    they run out.  Past the end of the lowered abbreviation it looks for the empty string.
   */
  function Run(c: Query, stringIndex: nat, abbrIndex: nat, table: Table, fuel: nat): Option<Searched>
    decreases fuel, 0
  {
    if fuel == 0 then None
    else if abbrIndex == |c.abbr| then
      Some(Searched(if stringIndex == |c.text| then SCORE_CONTINUE_MATCH else PENALTY_NOT_COMPLETE, table))
    else if (stringIndex, abbrIndex) in table then Some(Searched(table[(stringIndex, abbrIndex)], table))
    else
      var first := IndexOf(c.lowerText, CharAt(c.lowerAbbr, abbrIndex), stringIndex);
      var found := RunFrom(c, stringIndex, abbrIndex, first, 0.0, table, fuel - 1);
      if found.None? then None
      else Some(Searched(found.value.score, found.value.table[(stringIndex, abbrIndex) := found.value.score]))
  }

  /** The rounds of its loop from this match on. */
  function RunFrom(c: Query, stringIndex: nat, abbrIndex: nat, index: int, high: real, table: Table, fuel: nat)
    : Option<Searched>
    decreases fuel, 0
  {
    if index < 0 then Some(Searched(high, table))
    else if fuel == 0 then None
    else
      var found := RunAt(c, stringIndex, abbrIndex, index, high, table, fuel - 1);
      if found.None? then None
      else
        RunFrom(c, stringIndex, abbrIndex, IndexOf(c.lowerText, CharAt(c.lowerAbbr, abbrIndex), index + 1),
                Max(high, found.value.score), found.value.table, fuel - 1)
  }

  /** One round: the match itself, and the transposition where it applies. */
  function RunAt(c: Query, stringIndex: nat, abbrIndex: nat, index: nat, high: real, table: Table, fuel: nat)
    : Option<Searched>
    decreases fuel, 1
  {
    var plain := Run(c, index + 1, abbrIndex + 1, table, fuel);
    if plain.None? then None
    else
      var score := if plain.value.score > high then Weigh(c, stringIndex, abbrIndex, index, plain.value.score)
                   else plain.value.score;
      if !Transposes(c, abbrIndex, index, score) then Some(Searched(score, plain.value.table))
      else
        var transposed := Run(c, index + 1, abbrIndex + 2, plain.value.table, fuel);
        if transposed.None? then None
        else Some(Searched(Max(score, transposed.value.score * SCORE_TRANSPOSITION), transposed.value.table))
  }

  // ---- the score ----

  function NextMatch(c: Query, abbrIndex: nat, from: nat): (index: int)
    requires abbrIndex < |c.lowerAbbr|
    ensures index >= 0 ==> from <= index < |c.lowerText| && c.lowerText[index] == c.lowerAbbr[abbrIndex]
    ensures forall k :: from <= k < (if index < 0 then |c.lowerText| else index) ==>
              c.lowerText[k] != c.lowerAbbr[abbrIndex]
  {
    IndexOf(c.lowerText, CharAt(c.lowerAbbr, abbrIndex), from)
  }

  /**
    The score of matching the abbreviation from `abbrIndex` on in the text from `stringIndex`
    on, without counting calls, and none past the end of the lowered abbreviation.  `RunIsScore`
    and `RunReturns` say that this is what the search gives, and that none is when it gives
    nothing however long it runs.
   */
  function Score(c: Query, stringIndex: nat, abbrIndex: nat): Option<real>
    decreases |c.lowerAbbr| + 1 - (if abbrIndex <= |c.lowerAbbr| then abbrIndex else |c.lowerAbbr| + 1),
        |c.lowerText| + 1
  {
    if abbrIndex == |c.abbr| then
      Some(if stringIndex == |c.text| then SCORE_CONTINUE_MATCH else PENALTY_NOT_COMPLETE)
    else if abbrIndex >= |c.lowerAbbr| then None
    else Best(c, stringIndex, abbrIndex, NextMatch(c, abbrIndex, stringIndex), 0.0)
  }

  /** The best score over this match and the later ones, and `high`. */
  function Best(c: Query, stringIndex: nat, abbrIndex: nat, index: int, high: real): Option<real>
    requires abbrIndex < |c.lowerAbbr| && (index < 0 || stringIndex <= index < |c.lowerText|)
    decreases |c.lowerAbbr| + 1 - abbrIndex, if index < 0 then 0 else |c.lowerText| - index
  {
    if index < 0 then Some(high)
    else
      var score := At(c, stringIndex, abbrIndex, index, high);
      if score.None? then None
      else Best(c, stringIndex, abbrIndex, NextMatch(c, abbrIndex, index + 1), Max(high, score.value))
  }

  function Max(a: real, b: real): real {
    if b > a then b else a
  }

  /** The score of one match; only a plain score above the best so far is weighed. */
  function At(c: Query, stringIndex: nat, abbrIndex: nat, index: nat, high: real): Option<real>
    requires abbrIndex < |c.lowerAbbr| && stringIndex <= index < |c.lowerText|
    decreases |c.lowerAbbr| + 1 - abbrIndex, 0, 0
  {
    var plain := Score(c, index + 1, abbrIndex + 1);
    if plain.None? then None
    else
      var score := if plain.value > high then Weigh(c, stringIndex, abbrIndex, index, plain.value) else plain.value;
      if !Transposes(c, abbrIndex, index, score) then Some(score)
      else
        var transposed := Score(c, index + 1, abbrIndex + 2);
        if transposed.None? then None else Some(Max(score, transposed.value * SCORE_TRANSPOSITION))
  }

  // ---- every score lies between 0 and 1 ----

  lemma {:induction false} PowShrinks(x: real, n: nat)
    requires 0.0 < x <= 1.0
    ensures 0.0 < Pow(x, n) <= 1.0
  {
    if n > 0 {
      PowShrinks(x, n - 1);
      Scaled(x, Pow(x, n - 1));
    }
  }

  lemma Scaled(a: real, factor: real)
    requires 0.0 <= a && 0.0 < factor <= 1.0
    ensures 0.0 <= a * factor <= a && (a > 0.0 ==> a * factor > 0.0)
  {
  }

  lemma SkippedShrinks(score: real, stringIndex: nat, skipped: nat)
    requires 0.0 < score
    ensures 0.0 < Skipped(score, stringIndex, skipped) <= score
  {
    PowShrinks(PENALTY_SKIPPED, skipped);
    Scaled(score, Pow(PENALTY_SKIPPED, skipped));
  }

  /** Weighing never raises a score, keeps it positive, and leaves it whole only for an exact next letter. */
  lemma WeighShrinks(c: Query, stringIndex: nat, abbrIndex: nat, index: nat, score: real)
    requires stringIndex <= index && 0.0 < score <= 1.0
    ensures var w := Weigh(c, stringIndex, abbrIndex, index, score);
      && 0.0 < w <= score
      && (w == score <==> index == stringIndex && CharAt(c.text, index) == CharAt(c.abbr, abbrIndex))
      && (index == stringIndex ==> w >= score * PENALTY_CASE_MISMATCH)
  {
    hide Skipped, Count, Slice, IsGap, IsSpace;
    if index > stringIndex {
      JumpShrinks(c, stringIndex, index, score);
    }
  }

  lemma JumpShrinks(c: Query, stringIndex: nat, index: nat, score: real)
    requires stringIndex < index && 0.0 < score <= 1.0
    ensures 0.0 < Jump(c, stringIndex, index, score) < score
  {
    hide Skipped, Count, Slice, IsGap, IsSpace;
    var before := CharAt(c.text, index - 1);
    var breaks := Slice(c.text, stringIndex, index - 1);
    SkippedShrinks(score * SCORE_NON_SPACE_WORD_JUMP, stringIndex, Count(breaks, IsGap));
    SkippedShrinks(score * SCORE_SPACE_WORD_JUMP, stringIndex, Count(breaks, IsSpace));
    SkippedShrinks(score * SCORE_CHARACTER_JUMP, stringIndex, index - stringIndex);
  }

  // The kinds of match, each worth more than the next.
  datatype Kind = Next | AfterSpace | AfterGap | Elsewhere

  function KindOf(c: Query, stringIndex: nat, index: nat): Kind {
    var before := CharAt(c.text, index - 1);
    if index == stringIndex then Next
    else if before.Some? && IsGap(before.value) then AfterGap
    else if before.Some? && IsSpace(before.value) then AfterSpace
    else Elsewhere
  }

  function Rank(kind: Kind): nat {
    match kind
    case Next => 3
    case AfterSpace => 2
    case AfterGap => 1
    case Elsewhere => 0
  }

  /** Whether a place in the text counts as passed over by a match of this kind. */
  predicate CountsAsPassed(kind: Kind, c: char) {
    match kind
    case Next => false
    case AfterSpace => IsSpace(c)
    case AfterGap => IsGap(c)
    case Elsewhere => true
  }

  /** How many places a match passes over: breaks of the sort it follows, or else every letter between. */
  function Passed(text: string, kind: Kind, from: nat, index: nat): nat
    requires from <= index
  {
    if kind.Elsewhere? then index - from
    else |set k: nat | from <= k < index - 1 && k < |text| && CountsAsPassed(kind, text[k])|
  }

  function WorthOf(kind: Kind): real {
    match kind
    case Next => 1.0
    case AfterSpace => 0.9
    case AfterGap => 0.8
    case Elsewhere => 0.17
  }

  lemma {:induction false} CountIsSet(s: string, counted: char -> bool)
    ensures Count(s, counted) == |set k: nat | k < |s| && counted(s[k])|
  {
    var all := set k: nat | k < |s| && counted(s[k]);
    if s == [] {
      assert all == {};
    } else {
      var n := |s| - 1;
      var front := set k: nat | k < n && counted(s[..n][k]);
      CountIsSet(s[..n], counted);
      assert all == front + if counted(s[n]) then {n} else {};
    }
  }

  lemma CountIsPassed(text: string, kind: Kind, counted: char -> bool, from: nat, index: nat)
    requires from < index && (kind.AfterSpace? || kind.AfterGap?)
    requires forall c :: counted(c) == CountsAsPassed(kind, c)
    ensures Count(Slice(text, from, index - 1), counted) == Passed(text, kind, from, index)
  {
    hide Count, CountsAsPassed;
    var slice := Slice(text, from, index - 1);
    CountIsSet(slice, counted);
    var counts := set k: nat | k < |slice| && counted(slice[k]);
    var passed := set k: nat | from <= k < index - 1 && k < |text| && CountsAsPassed(kind, text[k]);
    assert forall k: nat :: k < |slice| ==> slice[k] == text[from + k];
    assert forall k: nat :: k in counts <==> from + k in passed;
    assert forall k: nat :: k in passed ==> k >= from && k - from in counts;
    ShiftedSize(counts, passed, from);
  }

  lemma {:induction false} ShiftedSize(a: set<nat>, b: set<nat>, step: nat)
    requires forall k: nat :: k in a <==> step + k in b
    requires forall k: nat :: k in b ==> k >= step
    ensures |a| == |b|
    decreases a
  {
    if a == {} {
      assert forall k: nat :: k in b ==> k - step in a;
      assert b == {};
    } else {
      var k :| k in a;
      ShiftedSize(a - {k}, b - {step + k}, step);
    }
  }

  /**
    What a match is worth, exactly: the score of the rest times the worth of its kind, a
    thousandth off for each place passed over, unless it is the first letter found, and a
    ten-thousandth off for the wrong case.
   */
  lemma WeighExactly(c: Query, stringIndex: nat, abbrIndex: nat, index: nat, score: real)
    requires stringIndex <= index
    ensures var kind := KindOf(c, stringIndex, index);
      var kept := if stringIndex == 0 then 1.0 else Pow(0.999, Passed(c.text, kind, stringIndex, index));
      Weigh(c, stringIndex, abbrIndex, index, score)
      == score * WorthOf(kind) * kept * (if CharAt(c.text, index) == CharAt(c.abbr, abbrIndex) then 1.0 else 0.9999)
  {
    hide Count, Slice, IsGap, IsSpace, Passed;
    var kind := KindOf(c, stringIndex, index);
    match kind {
      case Next => NothingPassed(c.text, stringIndex);
      case AfterSpace => CountIsPassed(c.text, kind, IsSpace, stringIndex, index);
      case AfterGap => CountIsPassed(c.text, kind, IsGap, stringIndex, index);
      case Elsewhere => AllPassed(c.text, stringIndex, index);
    }
  }

  lemma NothingPassed(text: string, from: nat)
    ensures Passed(text, Next, from, from) == 0
  {
    assert (set k: nat | from <= k < from - 1 && k < |text| && CountsAsPassed(Next, text[k])) == {};
  }

  lemma AllPassed(text: string, from: nat, index: nat)
    requires from <= index
    ensures Passed(text, Elsewhere, from, index) == index - from
  {
  }

  lemma {:induction false} CountIsBounded(s: string, counted: char -> bool)
    ensures Count(s, counted) <= |s|
  {
    if s != [] {
      CountIsBounded(s[..|s| - 1], counted);
    }
  }

  /** Skipping `n` costs at most a thousandth each. */
  lemma {:induction false} DecayIsSlow(n: nat)
    ensures Pow(PENALTY_SKIPPED, n) >= 1.0 - 0.001 * n as real
  {
    if n > 0 {
      DecayIsSlow(n - 1);
      PowShrinks(PENALTY_SKIPPED, n - 1);
    }
  }

  lemma SkippedIsBounded(score: real, stringIndex: nat, skipped: nat)
    requires 0.0 < score && skipped <= 100
    ensures score * 0.9 <= Skipped(score, stringIndex, skipped) <= score
  {
    DecayIsSlow(skipped);
    PowShrinks(PENALTY_SKIPPED, skipped);
    Between(score, Pow(PENALTY_SKIPPED, skipped));
  }

  lemma Between(score: real, factor: real)
    requires 0.0 < score && 0.9 <= factor <= 1.0
    ensures score * 0.9 <= score * factor <= score
  {
  }

  /** What a match keeps, between bounds of its kind. */
  lemma WorthOfKind(c: Query, stringIndex: nat, abbrIndex: nat, index: nat, score: real)
    requires stringIndex <= index && 0.0 < score <= 1.0
    ensures var w := Weigh(c, stringIndex, abbrIndex, index, score);
      match KindOf(c, stringIndex, index)
      case Next => 0.99 * score < w
      case AfterSpace => w <= 0.9 * score && (index - stringIndex <= 100 ==> 0.8 * score < w)
      case AfterGap => w <= 0.8 * score && (index - stringIndex <= 100 ==> 0.7 * score < w)
      case Elsewhere => w <= 0.17 * score
  {
    hide Skipped, Count, Slice, IsGap, IsSpace, Pow;
    if index > stringIndex {
      var breaks := Slice(c.text, stringIndex, index - 1);
      SliceIsBounded(c.text, stringIndex, index - 1);
      CountIsBounded(breaks, IsGap);
      CountIsBounded(breaks, IsSpace);
      SkippedShrinks(score * SCORE_NON_SPACE_WORD_JUMP, stringIndex, Count(breaks, IsGap));
      SkippedShrinks(score * SCORE_SPACE_WORD_JUMP, stringIndex, Count(breaks, IsSpace));
      SkippedShrinks(score * SCORE_CHARACTER_JUMP, stringIndex, index - stringIndex);
      if index - stringIndex <= 100 {
        SkippedIsBounded(score * SCORE_NON_SPACE_WORD_JUMP, stringIndex, Count(breaks, IsGap));
        SkippedIsBounded(score * SCORE_SPACE_WORD_JUMP, stringIndex, Count(breaks, IsSpace));
      }
    }
  }

  lemma SliceIsBounded(s: string, from: nat, to: nat)
    ensures |Slice(s, from, to)| <= if from < to then to - from else 0
  {
  }

  /**
    At equal score of the rest the better kind of match wins: the next letter over a word after
    a space, that over one after another gap, that over anywhere else.  Up to a hundred
    characters may lie between, at any place in the text and in either case of the letter.
   */
  lemma JumpsRank(c: Query, stringIndex: nat, abbrIndex: nat, index: nat,
                  d: Query, otherIndex: nat, otherAbbr: nat, other: nat, score: real)
    requires stringIndex <= index <= stringIndex + 100 && otherIndex <= other && 0.0 < score <= 1.0
    requires Rank(KindOf(c, stringIndex, index)) > Rank(KindOf(d, otherIndex, other))
    ensures Weigh(c, stringIndex, abbrIndex, index, score) > Weigh(d, otherIndex, otherAbbr, other, score)
  {
    hide Weigh, KindOf;
    WorthOfKind(c, stringIndex, abbrIndex, index, score);
    WorthOfKind(d, otherIndex, otherAbbr, other, score);
  }

  /** Every letter or break skipped after the first match costs something. */
  lemma {:induction false} SkippingMoreCostsMore(score: real, stringIndex: nat, fewer: nat, more: nat)
    requires 0.0 < score && 0 < stringIndex && fewer < more
    ensures Skipped(score, stringIndex, more) < Skipped(score, stringIndex, fewer)
    decreases more
  {
    PowShrinks(PENALTY_SKIPPED, more - 1);
    Scaled(score, Pow(PENALTY_SKIPPED, more - 1));
    assert Pow(PENALTY_SKIPPED, more) == PENALTY_SKIPPED * Pow(PENALTY_SKIPPED, more - 1);
    assert score * (PENALTY_SKIPPED * Pow(PENALTY_SKIPPED, more - 1))
        == PENALTY_SKIPPED * (score * Pow(PENALTY_SKIPPED, more - 1));
    assert Skipped(score, stringIndex, more - 1) == score * Pow(PENALTY_SKIPPED, more - 1);
    if fewer < more - 1 {
      SkippingMoreCostsMore(score, stringIndex, fewer, more - 1);
    }
  }

  predicate Fraction(score: Option<real>) {
    score.Some? ==> 0.0 <= score.value <= 1.0
  }

  lemma {:induction false} ScoreIsFraction(c: Query, stringIndex: nat, abbrIndex: nat)
    ensures Fraction(Score(c, stringIndex, abbrIndex))
    decreases |c.lowerAbbr| + 1 - (if abbrIndex <= |c.lowerAbbr| then abbrIndex else |c.lowerAbbr| + 1),
        |c.lowerText| + 1
  {
    if abbrIndex != |c.abbr| && abbrIndex < |c.lowerAbbr| {
      BestIsFraction(c, stringIndex, abbrIndex, NextMatch(c, abbrIndex, stringIndex), 0.0);
    }
  }

  lemma {:induction false} BestIsFraction(c: Query, stringIndex: nat, abbrIndex: nat, index: int, high: real)
    requires abbrIndex < |c.lowerAbbr| && (index < 0 || stringIndex <= index < |c.lowerText|) && 0.0 <= high <= 1.0
    ensures var best := Best(c, stringIndex, abbrIndex, index, high);
      Fraction(best) && (best.Some? ==> best.value >= high)
    decreases |c.lowerAbbr| + 1 - abbrIndex, if index < 0 then 0 else |c.lowerText| - index
  {
    if index >= 0 {
      AtIsFraction(c, stringIndex, abbrIndex, index, high);
      var score := At(c, stringIndex, abbrIndex, index, high);
      if score.Some? {
        BestIsFraction(c, stringIndex, abbrIndex, NextMatch(c, abbrIndex, index + 1), Max(high, score.value));
      }
    }
  }

  lemma {:induction false} AtIsFraction(c: Query, stringIndex: nat, abbrIndex: nat, index: nat, high: real)
    requires abbrIndex < |c.lowerAbbr| && stringIndex <= index < |c.lowerText| && 0.0 <= high <= 1.0
    ensures Fraction(At(c, stringIndex, abbrIndex, index, high))
    decreases |c.lowerAbbr| + 1 - abbrIndex, 0, 0
  {
    hide Weigh;
    ScoreIsFraction(c, index + 1, abbrIndex + 1);
    ScoreIsFraction(c, index + 1, abbrIndex + 2);
    var plain := Score(c, index + 1, abbrIndex + 1);
    if plain.Some? && plain.value > high {
      WeighShrinks(c, stringIndex, abbrIndex, index, plain.value);
    }
  }

  // ---- what a positive score means ----

  predicate Swappable(c: Query, abbrIndex: nat, index: nat) {
    CharAt(c.lowerText, index - 1) == CharAt(c.lowerAbbr, abbrIndex + 1) || Doubled(c, abbrIndex, index)
  }

  /**
    The rest of the lowered abbreviation can be found in order in the rest of the lowered
    text, where two swapped or doubled letters may be passed over for one.
   */
  predicate Spelled(c: Query, stringIndex: nat, abbrIndex: nat)
    decreases |c.lowerAbbr| + 2 - (if abbrIndex <= |c.lowerAbbr| then abbrIndex else |c.lowerAbbr| + 2),
        |c.lowerText| + 2
  {
    abbrIndex == |c.lowerAbbr| || (abbrIndex < |c.lowerAbbr| && SpelledFrom(c, abbrIndex, stringIndex))
  }

  /** The next letter can be taken at some place from `index` on; -1 is nowhere. */
  predicate SpelledFrom(c: Query, abbrIndex: nat, index: int)
    requires abbrIndex < |c.lowerAbbr|
    decreases |c.lowerAbbr| + 2 - abbrIndex, if 0 <= index <= |c.lowerText| then |c.lowerText| - index + 1 else 0
  {
    0 <= index < |c.lowerText| && (SpelledAt(c, abbrIndex, index) || SpelledFrom(c, abbrIndex, index + 1))
  }

  predicate SpelledAt(c: Query, abbrIndex: nat, index: nat)
    requires abbrIndex < |c.lowerAbbr| && index < |c.lowerText|
    decreases |c.lowerAbbr| + 2 - abbrIndex, 0
  {
    && c.lowerText[index] == c.lowerAbbr[abbrIndex]
    && (|| Spelled(c, index + 1, abbrIndex + 1)
        || (Swappable(c, abbrIndex, index) && Spelled(c, index + 1, abbrIndex + 2)))
  }

  /** Only matching places can be taken. */
  lemma {:induction false} SpelledAtNext(c: Query, abbrIndex: nat, from: nat)
    requires abbrIndex < |c.lowerAbbr|
    ensures SpelledFrom(c, abbrIndex, NextMatch(c, abbrIndex, from)) <==> SpelledFrom(c, abbrIndex, from)
    decreases |c.lowerText| - from
  {
    if from < |c.lowerText| && c.lowerText[from] != c.lowerAbbr[abbrIndex] {
      SpelledAtNext(c, abbrIndex, from + 1);
    }
  }

  /** Formatting took nothing out of the abbreviation. */
  predicate Whole(c: Query) {
    |c.lowerAbbr| == |c.abbr|
  }

  /**
    With a whole abbreviation the search always returns, and its score is positive exactly
    when the abbreviation is spelled in the text.
   */
  lemma {:induction false} PositiveWhenSpelled(c: Query, stringIndex: nat, abbrIndex: nat)
    requires Whole(c) && abbrIndex <= |c.abbr|
    ensures var score := Score(c, stringIndex, abbrIndex);
      score.Some? && (score.value > 0.0 <==> Spelled(c, stringIndex, abbrIndex))
    decreases |c.lowerAbbr| + 1 - abbrIndex, |c.lowerText| + 1
  {
    if abbrIndex < |c.abbr| {
      hide SpelledAt, Best;
      var index := NextMatch(c, abbrIndex, stringIndex);
      SpelledAtNext(c, abbrIndex, stringIndex);
      BestWhenSpelled(c, stringIndex, abbrIndex, index, 0.0);
    }
  }

  lemma {:induction false} BestWhenSpelled(c: Query, stringIndex: nat, abbrIndex: nat, index: int, high: real)
    requires Whole(c) && abbrIndex < |c.lowerAbbr| && (index < 0 || stringIndex <= index < |c.lowerText|)
    requires index >= 0 ==> c.lowerText[index] == c.lowerAbbr[abbrIndex]
    requires 0.0 <= high <= 1.0 && (index == 0 ==> high == 0.0)
    ensures var best := Best(c, stringIndex, abbrIndex, index, high);
      best.Some? && (best.value > 0.0 <==> high > 0.0 || SpelledFrom(c, abbrIndex, index))
    decreases |c.lowerAbbr| + 1 - abbrIndex, if index < 0 then 0 else |c.lowerText| - index
  {
    if index >= 0 {
      hide SpelledAt, At;
      AtWhenSpelled(c, stringIndex, abbrIndex, index, high);
      AtIsFraction(c, stringIndex, abbrIndex, index, high);
      SpelledAtNext(c, abbrIndex, index + 1);
      var score := At(c, stringIndex, abbrIndex, index, high);
      BestWhenSpelled(c, stringIndex, abbrIndex, NextMatch(c, abbrIndex, index + 1), Max(high, score.value));
    }
  }

  lemma {:induction false} AtWhenSpelled(c: Query, stringIndex: nat, abbrIndex: nat, index: nat, high: real)
    requires Whole(c) && abbrIndex < |c.lowerAbbr| && stringIndex <= index < |c.lowerText|
    requires c.lowerText[index] == c.lowerAbbr[abbrIndex]
    requires 0.0 <= high <= 1.0 && (index == 0 ==> high == 0.0)
    ensures var score := At(c, stringIndex, abbrIndex, index, high);
      score.Some? && (score.value > 0.0 <==> SpelledAt(c, abbrIndex, index))
    decreases |c.lowerAbbr| + 1 - abbrIndex, 0, 0
  {
    hide Weigh, Score, Spelled;
    PositiveWhenSpelled(c, index + 1, abbrIndex + 1);
    ScoreIsFraction(c, index + 1, abbrIndex + 1);
    var plain := Score(c, index + 1, abbrIndex + 1).value;
    if plain > high {
      WeighShrinks(c, stringIndex, abbrIndex, index, plain);
    }
    if abbrIndex + 2 <= |c.lowerAbbr| {
      PositiveWhenSpelled(c, index + 1, abbrIndex + 2);
      ScoreIsFraction(c, index + 1, abbrIndex + 2);
    } else {
      LastLetterStays(c, stringIndex, abbrIndex, index, high);
    }
  }

  /** At the last letter the transposition arm is never taken, so no search steps past the abbreviation. */
  lemma LastLetterStays(c: Query, stringIndex: nat, abbrIndex: nat, index: nat, high: real)
    requires Whole(c) && abbrIndex + 1 == |c.lowerAbbr| && stringIndex <= index < |c.lowerText|
    requires high <= 1.0 && (index == 0 ==> high == 0.0)
    ensures var plain := Score(c, index + 1, abbrIndex + 1);
      && plain.Some? && plain.value > 0.0 && !Doubled(c, abbrIndex, index)
      && !Transposes(c, abbrIndex, index,
           if plain.value > high then Weigh(c, stringIndex, abbrIndex, index, plain.value) else plain.value)
    ensures Spelled(c, index + 1, abbrIndex + 1) && !Spelled(c, index + 1, abbrIndex + 2)
  {
  }

  // ---- when the search never returns ----

  /** Formatting took something out of the abbreviation. */
  predicate Shortened(c: Query) {
    |c.lowerAbbr| < |c.abbr|
  }

  /**
    With a shortened abbreviation there is no score exactly when what is left of the
    abbreviation is spelled in the text; otherwise it is 0.
   */
  lemma {:induction false} NeverReturnsWhenSpelled(c: Query, stringIndex: nat, abbrIndex: nat)
    requires Shortened(c) && abbrIndex <= |c.lowerAbbr|
    ensures Score(c, stringIndex, abbrIndex) == if Spelled(c, stringIndex, abbrIndex) then None else Some(0.0)
    decreases |c.lowerAbbr| + 1 - abbrIndex, |c.lowerText| + 1
  {
    if abbrIndex < |c.lowerAbbr| {
      hide SpelledAt, Best;
      var index := NextMatch(c, abbrIndex, stringIndex);
      SpelledAtNext(c, abbrIndex, stringIndex);
      BestNeverReturns(c, stringIndex, abbrIndex, index);
    }
  }

  lemma {:induction false} BestNeverReturns(c: Query, stringIndex: nat, abbrIndex: nat, index: int)
    requires Shortened(c) && abbrIndex < |c.lowerAbbr| && (index < 0 || stringIndex <= index < |c.lowerText|)
    requires index >= 0 ==> c.lowerText[index] == c.lowerAbbr[abbrIndex]
    ensures Best(c, stringIndex, abbrIndex, index, 0.0)
         == if SpelledFrom(c, abbrIndex, index) then None else Some(0.0)
    decreases |c.lowerAbbr| + 1 - abbrIndex, if index < 0 then 0 else |c.lowerText| - index
  {
    if index >= 0 {
      hide SpelledAt, At;
      AtNeverReturns(c, stringIndex, abbrIndex, index);
      SpelledAtNext(c, abbrIndex, index + 1);
      BestNeverReturns(c, stringIndex, abbrIndex, NextMatch(c, abbrIndex, index + 1));
    }
  }

  lemma {:induction false} AtNeverReturns(c: Query, stringIndex: nat, abbrIndex: nat, index: nat)
    requires Shortened(c) && abbrIndex < |c.lowerAbbr| && stringIndex <= index < |c.lowerText|
    requires c.lowerText[index] == c.lowerAbbr[abbrIndex]
    ensures At(c, stringIndex, abbrIndex, index, 0.0) == if SpelledAt(c, abbrIndex, index) then None else Some(0.0)
    decreases |c.lowerAbbr| + 1 - abbrIndex, 0, 0
  {
    hide Weigh, Score;
    NeverReturnsWhenSpelled(c, index + 1, abbrIndex + 1);
    if abbrIndex + 2 <= |c.lowerAbbr| {
      NeverReturnsWhenSpelled(c, index + 1, abbrIndex + 2);
    }
  }

  // ---- what the search gives is the score ----

  /** Every memoized score is the one the recursion gives with nothing memoized. */
  ghost predicate Sound(c: Query, table: Table) {
    forall k :: k in table ==> Score(c, k.0, k.1) == Some(table[k])
  }

  /** Past the end of the lowered abbreviation, but at the abbreviation's own, no number of calls suffices. */
  lemma {:induction false} PastTheEnd(c: Query, stringIndex: nat, abbrIndex: nat, table: Table, fuel: nat)
    requires |c.lowerAbbr| <= abbrIndex != |c.abbr| && Sound(c, table)
    ensures Run(c, stringIndex, abbrIndex, table, fuel).None?
  {
    if fuel > 0 {
      hide RunFrom;
      assert Score(c, stringIndex, abbrIndex).None?;
      PastTheEndFrom(c, stringIndex, abbrIndex,
                     IndexOf(c.lowerText, CharAt(c.lowerAbbr, abbrIndex), stringIndex), fuel - 1);
    }
  }

  lemma {:induction false} PastTheEndFrom(c: Query, stringIndex: nat, abbrIndex: nat, index: nat, fuel: nat)
    requires |c.lowerAbbr| <= abbrIndex != |c.abbr|
    ensures forall high, table :: RunFrom(c, stringIndex, abbrIndex, index, high, table, fuel).None?
    decreases fuel
  {
    hide RunAt;
    if fuel > 0 {
      PastTheEndFrom(c, stringIndex, abbrIndex,
                     IndexOf(c.lowerText, CharAt(c.lowerAbbr, abbrIndex), index + 1), fuel - 1);
    }
  }

  /** When the search returns, it returns the score, and memoizes nothing but scores. */
  lemma {:induction false} RunIsScore(c: Query, stringIndex: nat, abbrIndex: nat, table: Table, fuel: nat)
    requires Sound(c, table) && Run(c, stringIndex, abbrIndex, table, fuel).Some?
    ensures var found := Run(c, stringIndex, abbrIndex, table, fuel).value;
      Score(c, stringIndex, abbrIndex) == Some(found.score) && Sound(c, found.table)
    decreases fuel, 0
  {
    if abbrIndex != |c.abbr| && (stringIndex, abbrIndex) !in table {
      hide RunFrom, Best;
      if abbrIndex >= |c.lowerAbbr| {
        PastTheEnd(c, stringIndex, abbrIndex, table, fuel);
      } else {
        RunFromIsBest(c, stringIndex, abbrIndex, NextMatch(c, abbrIndex, stringIndex), 0.0, table, fuel - 1);
      }
    }
  }

  lemma {:induction false} RunFromIsBest(c: Query, stringIndex: nat, abbrIndex: nat, index: int, high: real,
                                         table: Table, fuel: nat)
    requires abbrIndex < |c.lowerAbbr| && (index < 0 || stringIndex <= index < |c.lowerText|)
    requires Sound(c, table) && RunFrom(c, stringIndex, abbrIndex, index, high, table, fuel).Some?
    ensures var found := RunFrom(c, stringIndex, abbrIndex, index, high, table, fuel).value;
      Best(c, stringIndex, abbrIndex, index, high) == Some(found.score) && Sound(c, found.table)
    decreases fuel, 0
  {
    hide RunAt, At, IndexOf, CharAt, Sound;
    if index >= 0 {
      var found := RunAt(c, stringIndex, abbrIndex, index, high, table, fuel - 1);
      RunAtIsAt(c, stringIndex, abbrIndex, index, high, table, fuel - 1);
      RunFromIsBest(c, stringIndex, abbrIndex, NextMatch(c, abbrIndex, index + 1), Max(high, found.value.score),
                    found.value.table, fuel - 1);
    }
  }

  lemma {:induction false} RunAtIsAt(c: Query, stringIndex: nat, abbrIndex: nat, index: nat, high: real,
                                     table: Table, fuel: nat)
    requires abbrIndex < |c.lowerAbbr| && stringIndex <= index < |c.lowerText|
    requires Sound(c, table) && RunAt(c, stringIndex, abbrIndex, index, high, table, fuel).Some?
    ensures var found := RunAt(c, stringIndex, abbrIndex, index, high, table, fuel).value;
      At(c, stringIndex, abbrIndex, index, high) == Some(found.score) && Sound(c, found.table)
    decreases fuel, 1
  {
    hide Run, Score, Weigh, Transposes, Sound;
    RunIsScore(c, index + 1, abbrIndex + 1, table, fuel);
    var plain := Run(c, index + 1, abbrIndex + 1, table, fuel).value;
    if Run(c, index + 1, abbrIndex + 2, plain.table, fuel).Some? {
      RunIsScore(c, index + 1, abbrIndex + 2, plain.table, fuel);
    }
  }

  /** Calls enough for `letters` more letters of the abbreviation. */
  function Enough(c: Query, letters: nat): (fuel: nat)
    ensures fuel >= 1
  {
    if letters == 0 then 1 else Enough(c, letters - 1) + |c.lowerText| + 3
  }

  /** When there is a score, enough calls return it, whatever is memoized. */
  lemma {:induction false} RunReturns(c: Query, stringIndex: nat, abbrIndex: nat, table: Table, fuel: nat)
    requires Sound(c, table) && Score(c, stringIndex, abbrIndex).Some?
    requires fuel >= Enough(c, if abbrIndex <= |c.lowerAbbr| then |c.lowerAbbr| - abbrIndex else 0)
    ensures Run(c, stringIndex, abbrIndex, table, fuel).Some?
    decreases fuel, 0
  {
    if abbrIndex != |c.abbr| {
      hide RunFrom, Best;
      RunFromReturns(c, stringIndex, abbrIndex, NextMatch(c, abbrIndex, stringIndex), 0.0, table, fuel - 1);
    }
  }

  lemma {:induction false} RunFromReturns(c: Query, stringIndex: nat, abbrIndex: nat, index: int, high: real,
                                          table: Table, fuel: nat)
    requires abbrIndex < |c.lowerAbbr| && (index < 0 || stringIndex <= index < |c.lowerText|)
    requires Sound(c, table) && Best(c, stringIndex, abbrIndex, index, high).Some?
    requires index >= 0 ==> fuel >= Enough(c, |c.lowerAbbr| - abbrIndex - 1) + |c.lowerText| - index + 1
    ensures RunFrom(c, stringIndex, abbrIndex, index, high, table, fuel).Some?
    decreases fuel, 0
  {
    hide RunAt, At, IndexOf, CharAt, Enough, Sound;
    if index >= 0 {
      RunAtReturns(c, stringIndex, abbrIndex, index, high, table, fuel - 1);
      RunAtIsAt(c, stringIndex, abbrIndex, index, high, table, fuel - 1);
      var found := RunAt(c, stringIndex, abbrIndex, index, high, table, fuel - 1).value;
      RunFromReturns(c, stringIndex, abbrIndex, NextMatch(c, abbrIndex, index + 1), Max(high, found.score),
                     found.table, fuel - 1);
    }
  }

  lemma {:induction false} RunAtReturns(c: Query, stringIndex: nat, abbrIndex: nat, index: nat, high: real,
                                        table: Table, fuel: nat)
    requires abbrIndex < |c.lowerAbbr| && stringIndex <= index < |c.lowerText|
    requires Sound(c, table) && At(c, stringIndex, abbrIndex, index, high).Some?
    requires fuel >= Enough(c, |c.lowerAbbr| - abbrIndex - 1)
    ensures RunAt(c, stringIndex, abbrIndex, index, high, table, fuel).Some?
    decreases fuel, 1
  {
    hide Run, Score, Weigh, Transposes, Sound;
    RunReturns(c, index + 1, abbrIndex + 1, table, fuel);
    RunIsScore(c, index + 1, abbrIndex + 1, table, fuel);
    var plain := Run(c, index + 1, abbrIndex + 1, table, fuel).value;
    if Score(c, index + 1, abbrIndex + 2).Some? {
      RunReturns(c, index + 1, abbrIndex + 2, plain.table, fuel);
    }
  }

  /** Some number of calls gives a value. */
  ghost predicate Returns(c: Query, stringIndex: nat, abbrIndex: nat, table: Table) {
    exists fuel :: Run(c, stringIndex, abbrIndex, table, fuel).Some?
  }

  /** The search returns exactly when there is a score, whatever scores are memoized. */
  lemma RunReturnsScores(c: Query, stringIndex: nat, abbrIndex: nat, table: Table)
    requires Sound(c, table)
    ensures Returns(c, stringIndex, abbrIndex, table) <==> Score(c, stringIndex, abbrIndex).Some?
  {
    hide Run, Score, Sound;
    if Score(c, stringIndex, abbrIndex).Some? {
      RunReturns(c, stringIndex, abbrIndex, table,
                 Enough(c, if abbrIndex <= |c.lowerAbbr| then |c.lowerAbbr| - abbrIndex else 0));
    }
    if Returns(c, stringIndex, abbrIndex, table) {
      var fuel :| Run(c, stringIndex, abbrIndex, table, fuel).Some?;
      RunIsScore(c, stringIndex, abbrIndex, table, fuel);
    }
  }

  // ---- a score is the best on offer ----

  /** What taking the letter at `k` offers: the weighed score of the rest, or a tenth of a transposition's. */
  predicate Offers(c: Query, stringIndex: nat, abbrIndex: nat, k: nat, offer: real) {
    && abbrIndex < |c.lowerAbbr| && stringIndex <= k < |c.lowerText| && c.lowerText[k] == c.lowerAbbr[abbrIndex]
    && (|| OffersPlain(c, stringIndex, abbrIndex, k, offer)
        || OffersTransposed(c, abbrIndex, k, offer))
  }

  predicate OffersPlain(c: Query, stringIndex: nat, abbrIndex: nat, k: nat, offer: real) {
    var plain := Score(c, k + 1, abbrIndex + 1);
    plain.Some? && plain.value > 0.0 && offer == Weigh(c, stringIndex, abbrIndex, k, plain.value)
  }

  predicate OffersTransposed(c: Query, abbrIndex: nat, k: nat, offer: real) {
    var transposed := Score(c, k + 1, abbrIndex + 2);
    Swappable(c, abbrIndex, k) && transposed.Some? && offer == transposed.value * SCORE_TRANSPOSITION
  }

  /** One match: it raises the best so far to what it offers, and to nothing else. */
  lemma AtIsBest(c: Query, stringIndex: nat, abbrIndex: nat, index: nat, high: real)
    requires abbrIndex < |c.lowerAbbr| && stringIndex <= index < |c.lowerText| && 0.0 <= high <= 1.0
    requires c.lowerText[index] == c.lowerAbbr[abbrIndex] && At(c, stringIndex, abbrIndex, index, high).Some?
    ensures var score := At(c, stringIndex, abbrIndex, index, high).value;
      && (forall offer :: Offers(c, stringIndex, abbrIndex, index, offer) ==> offer <= Max(high, score))
      && (score > high ==> Offers(c, stringIndex, abbrIndex, index, score))
  {
    hide Score, Weigh, IndexOf;
    ScoreIsFraction(c, index + 1, abbrIndex + 1);
    ScoreIsFraction(c, index + 1, abbrIndex + 2);
    var plain := Score(c, index + 1, abbrIndex + 1).value;
    if plain > 0.0 {
      WeighShrinks(c, stringIndex, abbrIndex, index, plain);
    }
  }

  lemma {:induction false} BestIsBest(c: Query, stringIndex: nat, abbrIndex: nat, index: int, high: real)
    requires abbrIndex < |c.lowerAbbr| && (index < 0 || stringIndex <= index < |c.lowerText|) && 0.0 <= high <= 1.0
    requires index >= 0 ==> c.lowerText[index] == c.lowerAbbr[abbrIndex]
    requires Best(c, stringIndex, abbrIndex, index, high).Some?
    ensures var best := Best(c, stringIndex, abbrIndex, index, high).value;
      && high <= best
      && (index >= 0 ==>
            forall k, offer :: k >= index && Offers(c, stringIndex, abbrIndex, k, offer) ==> offer <= best)
      && (best > high ==> exists k :: Offers(c, stringIndex, abbrIndex, k, best))
    decreases if index < 0 then 0 else |c.lowerText| - index
  {
    hide Offers, At;
    if index >= 0 {
      var score := At(c, stringIndex, abbrIndex, index, high).value;
      var next := NextMatch(c, abbrIndex, index + 1);
      AtIsBest(c, stringIndex, abbrIndex, index, high);
      AtIsFraction(c, stringIndex, abbrIndex, index, high);
      BestIsBest(c, stringIndex, abbrIndex, next, Max(high, score));
      var best := Best(c, stringIndex, abbrIndex, index, high).value;
      forall k, offer | k >= index && Offers(c, stringIndex, abbrIndex, k, offer) ensures offer <= best {
        OffersAreMatches(c, stringIndex, abbrIndex, k, offer);
      }
    }
  }

  lemma OffersAreMatches(c: Query, stringIndex: nat, abbrIndex: nat, k: nat, offer: real)
    requires Offers(c, stringIndex, abbrIndex, k, offer)
    ensures abbrIndex < |c.lowerAbbr| && stringIndex <= k < |c.lowerText| && c.lowerText[k] == c.lowerAbbr[abbrIndex]
  {
  }

  /**
    A score is the best of what the matches offer: none offers more, and a positive score is
    what one of them offers.
   */
  lemma ScoreIsBest(c: Query, stringIndex: nat, abbrIndex: nat)
    requires abbrIndex != |c.abbr| && Score(c, stringIndex, abbrIndex).Some?
    ensures var score := Score(c, stringIndex, abbrIndex).value;
      && (forall k, offer :: Offers(c, stringIndex, abbrIndex, k, offer) ==> offer <= score)
      && (score > 0.0 ==> exists k :: Offers(c, stringIndex, abbrIndex, k, score))
  {
    hide Offers, Best;
    var first := NextMatch(c, abbrIndex, stringIndex);
    BestIsBest(c, stringIndex, abbrIndex, first, 0.0);
    var score := Score(c, stringIndex, abbrIndex).value;
    forall k, offer | Offers(c, stringIndex, abbrIndex, k, offer) ensures offer <= score {
      OffersAreMatches(c, stringIndex, abbrIndex, k, offer);
    }
  }

  // ---- a letter-for-letter subsequence is spelled ----

  predicate Subsequence(part: string, whole: string) {
    part == "" || (whole != "" && (Subsequence(part, whole[1..])
                                   || (part[0] == whole[0] && Subsequence(part[1..], whole[1..]))))
  }

  lemma {:induction false} SubsequenceIsSpelled(c: Query, stringIndex: nat, abbrIndex: nat)
    requires abbrIndex <= |c.lowerAbbr| && stringIndex <= |c.lowerText|
    requires Subsequence(c.lowerAbbr[abbrIndex..], c.lowerText[stringIndex..])
    ensures Spelled(c, stringIndex, abbrIndex)
    decreases |c.lowerText| - stringIndex
  {
    if abbrIndex < |c.lowerAbbr| {
      var part, whole := c.lowerAbbr[abbrIndex..], c.lowerText[stringIndex..];
      assert whole[1..] == c.lowerText[stringIndex + 1..] && part[1..] == c.lowerAbbr[abbrIndex + 1..];
      if Subsequence(part, whole[1..]) {
        SubsequenceIsSpelled(c, stringIndex + 1, abbrIndex);
      } else {
        SubsequenceIsSpelled(c, stringIndex + 1, abbrIndex + 1);
      }
    }
  }

  // ---- what a full score means ----

  predicate SameFrom(a: string, i: nat, b: string, j: nat) {
    i <= |a| && j <= |b| && a[i..] == b[j..]
  }

  lemma SameOneMore(a: string, i: nat, b: string, j: nat)
    requires i < |a| && j < |b|
    ensures SameFrom(a, i, b, j) <==> a[i] == b[j] && SameFrom(a, i + 1, b, j + 1)
  {
  }

  /** Only the rest of the abbreviation itself scores 1. */
  lemma {:induction false} FullScoreIsEqual(c: Query, stringIndex: nat, abbrIndex: nat)
    requires abbrIndex <= |c.abbr| && Score(c, stringIndex, abbrIndex) == Some(1.0)
    ensures SameFrom(c.text, stringIndex, c.abbr, abbrIndex)
    decreases |c.lowerAbbr| + 1 - (if abbrIndex <= |c.lowerAbbr| then abbrIndex else |c.lowerAbbr| + 1),
        |c.lowerText| + 1
  {
    if abbrIndex < |c.abbr| {
      hide SameFrom;
      var index := NextMatch(c, abbrIndex, stringIndex);
      FullBestIsNext(c, stringIndex, abbrIndex, index, 0.0);
      FullScoreIsEqual(c, stringIndex + 1, abbrIndex + 1);
      NextLetterSame(c, stringIndex, abbrIndex);
    }
  }

  lemma NextLetterSame(c: Query, stringIndex: nat, abbrIndex: nat)
    requires abbrIndex < |c.abbr| && CharAt(c.text, stringIndex) == CharAt(c.abbr, abbrIndex)
    requires SameFrom(c.text, stringIndex + 1, c.abbr, abbrIndex + 1)
    ensures SameFrom(c.text, stringIndex, c.abbr, abbrIndex)
  {
  }

  lemma {:induction false} FullBestIsNext(c: Query, stringIndex: nat, abbrIndex: nat, index: int, high: real)
    requires abbrIndex < |c.lowerAbbr| && (index < 0 || stringIndex <= index < |c.lowerText|) && 0.0 <= high < 1.0
    requires Best(c, stringIndex, abbrIndex, index, high) == Some(1.0)
    ensures index == stringIndex && CharAt(c.text, index) == CharAt(c.abbr, abbrIndex)
    ensures Score(c, index + 1, abbrIndex + 1) == Some(1.0)
    decreases |c.lowerText| - index
  {
    var score := At(c, stringIndex, abbrIndex, index, high);
    AtIsFraction(c, stringIndex, abbrIndex, index, high);
    if score.value == 1.0 {
      FullMatchIsNext(c, stringIndex, abbrIndex, index, high);
    } else {
      FullBestIsNext(c, stringIndex, abbrIndex, NextMatch(c, abbrIndex, index + 1), Max(high, score.value));
    }
  }

  lemma FullMatchIsNext(c: Query, stringIndex: nat, abbrIndex: nat, index: nat, high: real)
    requires abbrIndex < |c.lowerAbbr| && stringIndex <= index < |c.lowerText| && 0.0 <= high < 1.0
    requires At(c, stringIndex, abbrIndex, index, high) == Some(1.0)
    ensures index == stringIndex && CharAt(c.text, index) == CharAt(c.abbr, abbrIndex)
    ensures Score(c, index + 1, abbrIndex + 1) == Some(1.0)
  {
    hide Weigh, Score;
    ScoreIsFraction(c, index + 1, abbrIndex + 1);
    ScoreIsFraction(c, index + 1, abbrIndex + 2);
    var plain := Score(c, index + 1, abbrIndex + 1).value;
    if plain > high {
      WeighShrinks(c, stringIndex, abbrIndex, index, plain);
    }
  }

  /** And the rest of the abbreviation itself does score 1. */
  lemma {:induction false} EqualScoresFull(c: Query, stringIndex: nat, abbrIndex: nat)
    requires Whole(c) && abbrIndex <= |c.abbr|
    requires SameFrom(c.text, stringIndex, c.abbr, abbrIndex)
        && SameFrom(c.lowerText, stringIndex, c.lowerAbbr, abbrIndex)
    ensures Score(c, stringIndex, abbrIndex) == Some(1.0)
    decreases |c.abbr| - abbrIndex
  {
    if abbrIndex < |c.abbr| {
      SameOneMore(c.text, stringIndex, c.abbr, abbrIndex);
      SameOneMore(c.lowerText, stringIndex, c.lowerAbbr, abbrIndex);
      EqualScoresFull(c, stringIndex + 1, abbrIndex + 1);
      assert NextMatch(c, abbrIndex, stringIndex) == stringIndex;
      PositiveWhenSpelled(c, stringIndex, abbrIndex);
      FirstMatchScoresFull(c, stringIndex, abbrIndex);
    }
  }

  lemma FirstMatchScoresFull(c: Query, stringIndex: nat, abbrIndex: nat)
    requires Whole(c) && abbrIndex < |c.lowerAbbr| && stringIndex < |c.lowerText|
    requires c.lowerText[stringIndex] == c.lowerAbbr[abbrIndex]
    requires Score(c, stringIndex + 1, abbrIndex + 1) == Some(1.0)
    requires CharAt(c.text, stringIndex) == CharAt(c.abbr, abbrIndex)
    ensures Best(c, stringIndex, abbrIndex, stringIndex, 0.0) == Some(1.0)
  {
    hide Weigh, Score, Transposes;
    WeighShrinks(c, stringIndex, abbrIndex, stringIndex, 1.0);
    AtWhenSpelled(c, stringIndex, abbrIndex, stringIndex, 0.0);
    AtIsFraction(c, stringIndex, abbrIndex, stringIndex, 0.0);
    BestWhenSpelled(c, stringIndex, abbrIndex, stringIndex, 0.0);
    BestIsFraction(c, stringIndex, abbrIndex, stringIndex, 0.0);
    var next := NextMatch(c, abbrIndex, stringIndex + 1);
    BestIsFraction(c, stringIndex, abbrIndex, next, 1.0);
  }

  /** For one: a letter is found better after a slash at the end than inside the word before it. */
  lemma SlashStartsWord()
    ensures Score(Query("ab/b", "b", "ab/b", "b"), 0, 0) == Some(0.8)
  {
    var c := Query("ab/b", "b", "ab/b", "b");
    assert Score(c, 2, 1) == Some(0.99) && Score(c, 4, 1) == Some(1.0);
    assert c.lowerText[1] == 'b' && c.lowerText[2] == '/' && c.lowerText[3] == 'b';
    assert NextMatch(c, 0, 0) == 1 && NextMatch(c, 0, 2) == 3 && NextMatch(c, 0, 4) == -1;
    assert At(c, 0, 0, 1, 0.0) == Some(0.99 * 0.17);
    assert At(c, 0, 0, 3, 0.99 * 0.17) == Some(0.8);
  }

  // ---- what is left over counts ----

  /** Where more or less of the text is left than was typed, no score is above 0.99. */
  lemma {:induction false} LeftOverCosts(c: Query, stringIndex: nat, abbrIndex: nat)
    requires abbrIndex <= |c.abbr| && |c.text| - stringIndex != |c.abbr| - abbrIndex
    requires Score(c, stringIndex, abbrIndex).Some?
    ensures Score(c, stringIndex, abbrIndex).value <= 0.99
    decreases |c.abbr| - abbrIndex
  {
    if abbrIndex < |c.abbr| && Score(c, stringIndex, abbrIndex).value > 0.0 {
      hide Offers;
      ScoreIsBest(c, stringIndex, abbrIndex);
      var score := Score(c, stringIndex, abbrIndex).value;
      var k :| Offers(c, stringIndex, abbrIndex, k, score);
      OfferLeavesOver(c, stringIndex, abbrIndex, k, score);
    }
  }

  lemma {:induction false} OfferLeavesOver(c: Query, stringIndex: nat, abbrIndex: nat, k: nat, offer: real)
    requires abbrIndex < |c.abbr| && |c.text| - stringIndex != |c.abbr| - abbrIndex
    requires Offers(c, stringIndex, abbrIndex, k, offer)
    ensures offer <= 0.99
    decreases |c.abbr| - abbrIndex, 0
  {
    hide Score, Weigh;
    ScoreIsFraction(c, k + 1, abbrIndex + 1);
    ScoreIsFraction(c, k + 1, abbrIndex + 2);
    if OffersPlain(c, stringIndex, abbrIndex, k, offer) {
      var plain := Score(c, k + 1, abbrIndex + 1).value;
      WorthOfKind(c, stringIndex, abbrIndex, k, plain);
      WeighShrinks(c, stringIndex, abbrIndex, k, plain);
      if k == stringIndex {
        LeftOverCosts(c, k + 1, abbrIndex + 1);
      }
    }
  }

  /** The rest of the abbreviation is how the rest of the text begins. */
  predicate BeginsWith(text: string, stringIndex: nat, abbr: string, abbrIndex: nat) {
    stringIndex <= |text| && abbrIndex <= |abbr| && abbr[abbrIndex..] <= text[stringIndex..]
  }

  lemma BeginsFurther(text: string, stringIndex: nat, abbr: string, abbrIndex: nat)
    requires BeginsWith(text, stringIndex, abbr, abbrIndex) && abbrIndex < |abbr|
    ensures stringIndex < |text| && text[stringIndex] == abbr[abbrIndex]
    ensures BeginsWith(text, stringIndex + 1, abbr, abbrIndex + 1)
  {
    assert abbr[abbrIndex..][0] == text[stringIndex..][0];
    assert abbr[abbrIndex..][1..] == abbr[abbrIndex + 1..] && text[stringIndex..][1..] == text[stringIndex + 1..];
  }

  /** Typing how a longer text begins scores 0.99, just below typing all of it. */
  lemma {:induction false} BeginningScores(c: Query, stringIndex: nat, abbrIndex: nat)
    requires Whole(c) && BeginsWith(c.text, stringIndex, c.abbr, abbrIndex)
    requires BeginsWith(c.lowerText, stringIndex, c.lowerAbbr, abbrIndex)
    requires |c.text| - stringIndex > |c.abbr| - abbrIndex
    ensures Score(c, stringIndex, abbrIndex) == Some(0.99)
    decreases |c.abbr| - abbrIndex
  {
    if abbrIndex < |c.abbr| {
      hide Score, Weigh, Spelled, BeginsWith;
      BeginsFurther(c.text, stringIndex, c.abbr, abbrIndex);
      BeginsFurther(c.lowerText, stringIndex, c.lowerAbbr, abbrIndex);
      BeginningScores(c, stringIndex + 1, abbrIndex + 1);
      PositiveWhenSpelled(c, stringIndex, abbrIndex);
      WeighShrinks(c, stringIndex, abbrIndex, stringIndex, 0.99);
      ScoreIsBest(c, stringIndex, abbrIndex);
      assert Offers(c, stringIndex, abbrIndex, stringIndex, 0.99);
      LeftOverCosts(c, stringIndex, abbrIndex);
    }
  }

  // ---- the search in place ----

  class Memo {
    var table: Table

    constructor ()
      ensures table == map[]
    {
      table := map[];
    }

    /** It asks only that the search returns. */
    method Search(c: Query, stringIndex: nat, abbrIndex: nat, ghost fuel: nat) returns (score: real)
      requires Run(c, stringIndex, abbrIndex, table, fuel).Some?
      modifies this
      ensures Run(c, stringIndex, abbrIndex, old(table), fuel) == Some(Searched(score, table))
      ensures Sound(c, old(table)) ==> Sound(c, table) && Score(c, stringIndex, abbrIndex) == Some(score)
      decreases fuel, 1
    {
      hide RunAt, Sound, Score, IndexOf, CharAt;
      if Sound(c, table) {
        RunIsScore(c, stringIndex, abbrIndex, table, fuel);
      }
      if abbrIndex == |c.abbr| {
        if stringIndex == |c.text| {
          return SCORE_CONTINUE_MATCH;
        }
        return PENALTY_NOT_COMPLETE;
      }
      if (stringIndex, abbrIndex) in table {
        return table[(stringIndex, abbrIndex)];
      }
      var index := IndexOf(c.lowerText, CharAt(c.lowerAbbr, abbrIndex), stringIndex);
      ghost var first := index;
      var highScore := 0.0;
      ghost var left: nat := fuel - 1;
      while index >= 0
        invariant left < fuel && RunFrom(c, stringIndex, abbrIndex, index, highScore, table, left).Some?
        invariant RunFrom(c, stringIndex, abbrIndex, index, highScore, table, left)
               == RunFrom(c, stringIndex, abbrIndex, first, 0.0, old(table), fuel - 1)
        decreases left
      {
        left := left - 1;
        var found := SearchMatch(c, stringIndex, abbrIndex, index, highScore, left);
        if found > highScore {
          highScore := found;
        }
        index := IndexOf(c.lowerText, CharAt(c.lowerAbbr, abbrIndex), index + 1);
      }
      table := table[(stringIndex, abbrIndex) := highScore];
      score := highScore;
    }

    /** One round of the search: the score of the match at `index`. */
    method SearchMatch(c: Query, stringIndex: nat, abbrIndex: nat, index: nat, highScore: real, ghost fuel: nat)
      returns (score: real)
      requires RunAt(c, stringIndex, abbrIndex, index, highScore, table, fuel).Some?
      modifies this
      ensures RunAt(c, stringIndex, abbrIndex, index, highScore, old(table), fuel) == Some(Searched(score, table))
      decreases fuel, 2
    {
      hide Weigh, Transposes, Run;
      score := Search(c, index + 1, abbrIndex + 1, fuel);
      if score > highScore {
        score := Weigh(c, stringIndex, abbrIndex, index, score);
      }
      if Transposes(c, abbrIndex, index, score) {
        var transposed := Search(c, index + 1, abbrIndex + 2, fuel);
        if transposed * SCORE_TRANSPOSITION > score {
          score := transposed * SCORE_TRANSPOSITION;
        }
      }
    }
  }

  // ---- the entry point ----

  /** `formatInput` after lower-casing: spaces and hyphens go. */
  function WithoutSpaces(s: string): string {
    if s == "" then "" else WithoutSpaces(s[..|s| - 1]) + if IsSpace(s[|s| - 1]) then "" else [s[|s| - 1]]
  }

  predicate HasSpace(s: string) {
    exists k :: 0 <= k < |s| && IsSpace(s[k])
  }

  lemma {:induction false} FormattingShortens(s: string)
    ensures |WithoutSpaces(s)| <= |s|
    ensures |WithoutSpaces(s)| == |s| <==> !HasSpace(s)
  {
    if s != "" {
      var front := s[..|s| - 1];
      FormattingShortens(front);
      assert forall k :: 0 <= k < |front| ==> front[k] == s[k];
      assert !IsSpace(s[|s| - 1]) ==> (HasSpace(s) <==> HasSpace(front));
    }
  }

  function Joined(text: string, aliases: seq<string>): string {
    if aliases == [] then text else Joined(text, aliases[..|aliases| - 1]) + aliases[|aliases| - 1]
  }

  /** Aliases are searched as if each were written on to the text, in turn. */
  lemma {:induction false} JoinedInTurn(text: string, first: string, more: seq<string>)
    ensures Joined(text, []) == text && Joined(text, [first] + more) == Joined(text + first, more)
  {
    if more == [] {
      assert [first] + more == [first] && [first][..0] == [];
    } else {
      var n := |more| - 1;
      assert ([first] + more)[..n + 1] == [first] + more[..n];
      JoinedInTurn(text, first, more[..n]);
    }
  }

  /** What is searched for what; `lower` is the platform's lower-casing. */
  function QueryOf(text: string, abbr: string, aliases: seq<string>, lower: string -> string): Query {
    var joined := Joined(text, aliases);
    Query(joined, abbr, WithoutSpaces(lower(joined)), WithoutSpaces(lower(abbr)))
  }

  /**
    Where what is left of the abbreviation is no longer than the abbreviation, no number of
    calls gives a value exactly when it is shorter and spelled in the text: the search fails on
    the very texts it should have matched.  On all others it returns.  Where lower-casing keeps
    lengths, it is shorter exactly when the abbreviation holds a space or a hyphen.
   */
  lemma SearchReturns(text: string, abbr: string, aliases: seq<string>, lower: string -> string)
    requires |WithoutSpaces(lower(abbr))| <= |abbr|
    ensures var query := QueryOf(text, abbr, aliases, lower);
      var shorter := |query.lowerAbbr| < |abbr|;
      && (!Returns(query, 0, 0, map[]) <==> shorter && Spelled(query, 0, 0))
      && (Score(query, 0, 0).None? <==> shorter && Spelled(query, 0, 0))
      && (shorter && Score(query, 0, 0).Some? ==> Score(query, 0, 0) == Some(0.0))
      && (|lower(abbr)| == |abbr| ==> (shorter <==> HasSpace(lower(abbr))))
  {
    hide Returns, Score, Spelled;
    FormattingShortens(lower(abbr));
    var query := QueryOf(text, abbr, aliases, lower);
    RunReturnsScores(query, 0, 0, map[]);
    if |query.lowerAbbr| < |abbr| {
      NeverReturnsWhenSpelled(query, 0, 0);
    } else {
      PositiveWhenSpelled(query, 0, 0);
    }
  }

  /** For one: two letters with a space between them, typed for a text of the two letters. */
  lemma InnerSpaceNeverReturns(first: char, second: char, fuel: nat)
    requires !IsSpace(first) && !IsSpace(second)
    ensures Run(QueryOf([first, second], [first, ' ', second], [], s => s), 0, 0, map[], fuel).None?
  {
    var typed, text := [first, ' ', second], [first, second];
    var query := QueryOf(text, typed, [], s => s);
    assert IsSpace(typed[1]);
    assert typed[..2] == [first, ' '] && typed[..2][..1] == [first] && [first][..0] == "" && text[..1] == [first];
    assert WithoutSpaces([first]) == [first];
    assert WithoutSpaces(text) == text && WithoutSpaces([first, ' ']) == [first];
    assert WithoutSpaces(typed) == text;
    SubsequenceOfItself(text);
    assert text[0..] == text;
    SubsequenceIsSpelled(query, 0, 0);
    SearchReturns(text, typed, [], s => s);
  }

  lemma {:induction false} SubsequenceOfItself(s: string)
    ensures Subsequence(s, s)
  {
    if s != "" {
      SubsequenceOfItself(s[1..]);
    }
  }

  /**
    What a caller gets wherever the search returns: a score from 0 to 1, and 1 only when the text
    with its aliases is what was typed; and, unless lower-casing made more letters of what was
    typed, always 1 then, positive exactly when it is spelled in the text, as every subsequence
    is, and otherwise 0.
   */
  method CommandScore(text: string, abbr: string, aliases: seq<string>, lower: string -> string) returns (score: real)
    requires Returns(QueryOf(text, abbr, aliases, lower), 0, 0, map[])
    ensures 0.0 <= score <= 1.0
    ensures score == 1.0 ==> Joined(text, aliases) == abbr
    ensures var query := QueryOf(text, abbr, aliases, lower);
      |query.lowerAbbr| <= |abbr| ==>
        && (score == 1.0 <==> Joined(text, aliases) == abbr)
        && (score > 0.0 <==> Spelled(query, 0, 0))
        && (Subsequence(query.lowerAbbr, query.lowerText) ==> score > 0.0)
  {
    hide Score, Run, Spelled, QueryOf;
    var query := QueryOf(text, abbr, aliases, lower);
    ghost var fuel :| Run(query, 0, 0, map[], fuel).Some?;
    var memo := new Memo();
    score := memo.Search(query, 0, 0, fuel);
    ScoreIsFraction(query, 0, 0);
    ScoreMeaning(text, abbr, aliases, lower, score);
  }

  lemma ScoreMeaning(text: string, abbr: string, aliases: seq<string>, lower: string -> string, score: real)
    requires var query := QueryOf(text, abbr, aliases, lower);
      Returns(query, 0, 0, map[]) && Score(query, 0, 0) == Some(score)
    ensures score == 1.0 ==> Joined(text, aliases) == abbr
    ensures var query := QueryOf(text, abbr, aliases, lower);
      |query.lowerAbbr| <= |abbr| ==>
        && (score == 1.0 <==> Joined(text, aliases) == abbr)
        && (score > 0.0 <==> Spelled(query, 0, 0))
        && (Subsequence(query.lowerAbbr, query.lowerText) ==> score > 0.0)
  {
    hide Score, Run, Spelled, Subsequence, Returns;
    var query := QueryOf(text, abbr, aliases, lower);
    assert query.text[0..] == query.text && query.abbr[0..] == query.abbr;
    assert query.lowerAbbr[0..] == query.lowerAbbr && query.lowerText[0..] == query.lowerText;
    if score == 1.0 {
      FullScoreIsEqual(query, 0, 0);
    }
    if |query.lowerAbbr| <= |abbr| {
      SearchReturns(text, abbr, aliases, lower);
      if query.text == abbr {
        SubsequenceOfItself(query.lowerAbbr);
      }
      if Subsequence(query.lowerAbbr, query.lowerText) {
        SubsequenceIsSpelled(query, 0, 0);
      }
      if |query.lowerAbbr| == |abbr| {
        PositiveWhenSpelled(query, 0, 0);
        if query.text == abbr {
          EqualScoresFull(query, 0, 0);
        }
      }
    }
  }
}
