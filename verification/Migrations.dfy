/** Opening a database: what its ledger says is left to run, and what a crash leaves behind. */
module Migrations {
  type Tag = string

  datatype Migration = Migration(tag: Tag, sql: string)

  datatype OpenPlan =
    | UpToDate
    | Pending(rest: seq<Migration>)
    | Ahead(unknown: seq<Tag>)
    | Diverged(applied: seq<Tag>)

  function TagsOf(chain: seq<Migration>): (tags: seq<Tag>)
    ensures |tags| == |chain| && forall k :: 0 <= k < |chain| ==> tags[k] == chain[k].tag
  {
    seq(|chain|, k requires 0 <= k < |chain| => chain[k].tag)
  }

  function UnknownTags(applied: seq<Tag>, tags: seq<Tag>): seq<Tag> {
    if applied == [] then []
    else UnknownTags(applied[..|applied| - 1], tags)
         + if applied[|applied| - 1] in tags then [] else [applied[|applied| - 1]]
  }

  method Plan(applied: seq<Tag>, chain: seq<Migration>) returns (plan: OpenPlan)
    ensures plan.Ahead? <==> exists t :: t in applied && t !in TagsOf(chain)
    ensures plan.Ahead? ==> plan.unknown == UnknownTags(applied, TagsOf(chain))
    ensures plan.UpToDate? <==> applied == TagsOf(chain)
    ensures plan.Pending? <==> applied < TagsOf(chain)
    ensures plan.Pending? ==> plan.rest == chain[|applied|..]
    ensures plan.Diverged? ==> plan.applied == applied
  {
    var tags := TagsOf(chain);
    var unknown := UnknownTags(applied, tags);
    UnknownTagsMeaning(applied, tags);
    if unknown != [] {
      return Ahead(unknown);
    }
    var index := 0;
    while index < |applied|
      invariant 0 <= index <= |applied|
      invariant index <= |tags| && applied[..index] == tags[..index]
    {
      if index >= |tags| || applied[index] != tags[index] {
        return Diverged(applied);
      }
      index := index + 1;
    }
    assert applied[..|applied|] == applied && tags[..|tags|] == tags;
    if |applied| == |tags| {
      return UpToDate;
    }
    plan := Pending(chain[|applied|..]);
  }

  lemma {:induction false} UnknownTagsMeaning(applied: seq<Tag>, tags: seq<Tag>)
    ensures UnknownTags(applied, tags) != [] <==> exists t :: t in applied && t !in tags
  {
    if applied != [] {
      var n := |applied| - 1;
      UnknownTagsMeaning(applied[..n], tags);
      assert applied == applied[..n] + [applied[n]];
    }
  }

  /** `at` picks, in order, exactly the applied tags that the chain does not have. */
  ghost predicate PicksUnknown(applied: seq<Tag>, tags: seq<Tag>, unknown: seq<Tag>, at: seq<nat>) {
    && |at| == |unknown|
    && (forall i :: 0 <= i < |at| ==> at[i] < |applied| && applied[at[i]] == unknown[i] && unknown[i] !in tags)
    && (forall i, j :: 0 <= i < j < |at| ==> at[i] < at[j])
    && (forall k: nat :: k < |applied| && applied[k] !in tags ==> k in at)
  }

  /** The unknown tags are just those, each as often as it was applied. */
  lemma {:induction false} UnknownTagsInOrder(applied: seq<Tag>, tags: seq<Tag>) returns (at: seq<nat>)
    ensures PicksUnknown(applied, tags, UnknownTags(applied, tags), at)
  {
    at := [];
    if applied != [] {
      var n := |applied| - 1;
      var before := UnknownTagsInOrder(applied[..n], tags);
      at := if applied[n] in tags then before else before + [n];
      PicksOneMore(applied, tags, UnknownTags(applied[..n], tags), before);
    }
  }

  lemma PicksOneMore(applied: seq<Tag>, tags: seq<Tag>, unknown: seq<Tag>, at: seq<nat>)
    requires applied != [] && PicksUnknown(applied[..|applied| - 1], tags, unknown, at)
    ensures applied[|applied| - 1] in tags ==> PicksUnknown(applied, tags, unknown + [], at)
    ensures applied[|applied| - 1] !in tags ==>
      PicksUnknown(applied, tags, unknown + [applied[|applied| - 1]], at + [|applied| - 1])
  {
    var n := |applied| - 1;
    assert forall k: nat :: k < n ==> applied[..n][k] == applied[k];
    assert unknown + [] == unknown;
    assert (at + [n])[|at|] == n && forall k :: k in at ==> k in at + [n];
  }

  // ---- the ledger ----

  /** A strict order on tags, as the database's `ORDER BY tag` has it. */
  ghost predicate StrictOrder(lt: (Tag, Tag) -> bool) {
    && (forall a :: !lt(a, a))
    && (forall a, b :: a != b ==> lt(a, b) || lt(b, a))
    && (forall a, b, c :: lt(a, b) && lt(b, c) ==> lt(a, c))
  }

  ghost predicate Increasing(lt: (Tag, Tag) -> bool, tags: seq<Tag>) {
    forall i, j :: 0 <= i < j < |tags| ==> lt(tags[i], tags[j])
  }

  ghost predicate Unrepeated(tags: seq<Tag>) {
    forall i, j :: 0 <= i < j < |tags| ==> tags[i] != tags[j]
  }

  /** Reading the ledger gives its tags in order. */
  ghost predicate ReadAs(lt: (Tag, Tag) -> bool, rows: set<Tag>, applied: seq<Tag>) {
    Increasing(lt, applied) && forall t :: t in applied <==> t in rows
  }

  class Ledger {
    var rows: set<Tag>

    constructor ()
      ensures rows == {}
    {
      rows := {};
    }

    /** Each migration commits with its own row; `steps` is how many did before the process died. */
    method RunPending(rest: seq<Migration>, steps: nat)
      requires steps <= |rest|
      modifies this
      ensures rows == old(rows) + (set k | 0 <= k < steps :: rest[k].tag)
    {
      for k := 0 to steps
        invariant rows == old(rows) + (set j | 0 <= j < k :: rest[j].tag)
      {
        rows := rows + {rest[k].tag};
      }
    }
  }

  /** The rows a run from nothing has committed when it dies after `n` migrations. */
  function RowsAfter(chain: seq<Migration>, n: nat): set<Tag>
    requires n <= |chain|
  {
    set k | 0 <= k < n :: chain[k].tag
  }

  lemma {:induction false} ReadingIsUnique(lt: (Tag, Tag) -> bool, a: seq<Tag>, b: seq<Tag>)
    requires StrictOrder(lt) && Increasing(lt, a) && Increasing(lt, b) && forall t :: t in a <==> t in b
    ensures a == b
  {
    assert b != [] ==> b[0] in b;
    if a != [] {
      assert a[0] in b;
      LeastFirst(lt, a, b);
      forall t ensures t in a[1..] <==> t in b[1..] {
        InTail(lt, a, t);
        InTail(lt, b, t);
      }
      ReadingIsUnique(lt, a[1..], b[1..]);
      assert a == [a[0]] + a[1..] && b == [b[0]] + b[1..];
    }
  }

  lemma LeastFirst(lt: (Tag, Tag) -> bool, a: seq<Tag>, b: seq<Tag>)
    requires StrictOrder(lt) && Increasing(lt, a) && Increasing(lt, b) && a != [] && b != []
    requires forall t :: t in a <==> t in b
    ensures a[0] == b[0]
  {
    assert a[0] in b && b[0] in a;
    var i :| 0 <= i < |b| && b[i] == a[0];
    var j :| 0 <= j < |a| && a[j] == b[0];
    assert forall k :: 0 <= k < |b| ==> b[k] == b[0] || lt(b[0], b[k]);
    assert forall k :: 0 <= k < |a| ==> a[k] == a[0] || lt(a[0], a[k]);
  }

  lemma InTail(lt: (Tag, Tag) -> bool, s: seq<Tag>, t: Tag)
    requires StrictOrder(lt) && Increasing(lt, s) && s != []
    ensures t in s[1..] <==> t in s && t != s[0]
  {
  }

  /** With increasing tags, a ledger read after a crash is the part of the chain that ran. */
  lemma CrashLeavesPrefix(lt: (Tag, Tag) -> bool, chain: seq<Migration>, n: nat, applied: seq<Tag>)
    requires StrictOrder(lt) && Increasing(lt, TagsOf(chain)) && n <= |chain|
    requires ReadAs(lt, RowsAfter(chain, n), applied)
    ensures applied == TagsOf(chain)[..n]
  {
    var ran := TagsOf(chain)[..n];
    forall t ensures t in applied <==> t in ran {
      if t in RowsAfter(chain, n) {
        var k :| 0 <= k < n && chain[k].tag == t;
        assert ran[k] == t;
      }
    }
    ReadingIsUnique(lt, applied, ran);
  }

  /**
    Crash safety, exactly: for tags that do not repeat, every ledger that a crash can leave
    is planned as a prefix of the chain if and only if the chain's tags increase.
   */
  lemma CrashNeverDiverges(lt: (Tag, Tag) -> bool, chain: seq<Migration>)
    requires StrictOrder(lt) && Unrepeated(TagsOf(chain))
    ensures Increasing(lt, TagsOf(chain)) <==>
      forall n: nat, applied :: n <= |chain| && ReadAs(lt, RowsAfter(chain, n), applied) ==> applied <= TagsOf(chain)
  {
    var tags := TagsOf(chain);
    if Increasing(lt, tags) {
      forall n: nat, applied | n <= |chain| && ReadAs(lt, RowsAfter(chain, n), applied) ensures applied <= tags {
        CrashLeavesPrefix(lt, chain, n, applied);
      }
    }
    if forall n: nat, applied :: n <= |chain| && ReadAs(lt, RowsAfter(chain, n), applied) ==> applied <= tags {
      var applied := SomeReading(lt, RowsAfter(chain, |chain|));
      assert applied <= tags;
      AllRan(lt, chain, applied);
    }
  }

  lemma AllRan(lt: (Tag, Tag) -> bool, chain: seq<Migration>, applied: seq<Tag>)
    requires Unrepeated(TagsOf(chain)) && ReadAs(lt, RowsAfter(chain, |chain|), applied) && applied <= TagsOf(chain)
    ensures Increasing(lt, TagsOf(chain))
  {
    var tags := TagsOf(chain);
    forall k | 0 <= k < |tags| ensures tags[k] in applied {
      assert chain[k].tag in RowsAfter(chain, |chain|);
    }
    forall k, j | 0 <= k < |tags| && 0 <= j < |applied| && applied[j] == tags[k] ensures k < |applied| {
      assert applied[j] == tags[j];
    }
  }

  /** Any set of tags can be read in order. */
  lemma {:induction false} SomeReading(lt: (Tag, Tag) -> bool, rows: set<Tag>) returns (applied: seq<Tag>)
    requires StrictOrder(lt)
    ensures ReadAs(lt, rows, applied)
    decreases |rows|
  {
    if rows == {} {
      applied := [];
    } else {
      var last := Greatest(lt, rows);
      var front := SomeReading(lt, rows - {last});
      applied := front + [last];
      assert forall k :: 0 <= k < |front| ==> front[k] in front;
    }
  }

  lemma {:induction false} Greatest(lt: (Tag, Tag) -> bool, rows: set<Tag>) returns (last: Tag)
    requires StrictOrder(lt) && rows != {}
    ensures last in rows && forall t :: t in rows && t != last ==> lt(t, last)
    decreases |rows|
  {
    last :| last in rows;
    if rows != {last} {
      var other := Greatest(lt, rows - {last});
      if lt(last, other) {
        last := other;
      }
    }
  }
}
