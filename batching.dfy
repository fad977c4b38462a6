/**
 * How a commit turns the pending batch into backend operations: the pending
 * (destination, envelope) pairs are grouped by destination (in order of first
 * occurrence, keeping the relative order inside each group, as LINQ's GroupBy
 * does); a group of fewer than BatchThreshold envelopes becomes one send per
 * envelope, a larger group becomes batch sends of consecutive chunks of
 * BatchSize envelopes, the last chunk possibly smaller.
 */
module Batching {
  import opened Messages

  type Destination = string
  type Pending = seq<(Destination, Envelope)>

  const BatchThreshold: nat := 100
  const BatchSize: nat := 100

  /** One backend operation of a flush. */
  datatype Step =
    | SendOne(dest: Destination, envelope: Envelope)
    | SendMany(dest: Destination, envelopes: seq<Envelope>)

  /** The distinct destinations of the batch, in order of first occurrence. */
  function Destinations(pending: Pending): seq<Destination>
  {
    if pending == [] then []
    else
      var earlier := Destinations(pending[..|pending| - 1]);
      var d := pending[|pending| - 1].0;
      if d in earlier then earlier else earlier + [d]
  }

  /** The envelopes addressed to dest, in their original order. */
  function Filter(pending: Pending, dest: Destination): seq<Envelope>
  {
    if pending == [] then []
    else
      var last := pending[|pending| - 1];
      Filter(pending[..|pending| - 1], dest) + (if last.0 == dest then [last.1] else [])
  }

  /** The batch grouped by destination (see GroupByGroups). */
  function GroupBy(pending: Pending): seq<(Destination, seq<Envelope>)>
  {
    var ds := Destinations(pending);
    seq(|ds|, i requires 0 <= i < |ds| => (ds[i], Filter(pending, ds[i])))
  }

  /** Consecutive chunks of n elements, the last one possibly shorter (see
      PartitionFlatten and PartitionSizes). */
  function Partition<T>(s: seq<T>, n: nat): seq<seq<T>>
    requires n > 0
    decreases |s|
  {
    if s == [] then []
    else if |s| <= n then [s]
    else [s[..n]] + Partition(s[n..], n)
  }

  function Flatten<T>(chunks: seq<seq<T>>): seq<T>
  {
    if chunks == [] then [] else chunks[0] + Flatten(chunks[1..])
  }

  /** The operations that send one destination's group (see GroupStepsCarry,
      SmallGroupSentIndividually and LargeGroupSentInChunks). */
  function GroupSteps(dest: Destination, envelopes: seq<Envelope>): seq<Step>
  {
    if |envelopes| < BatchThreshold then
      seq(|envelopes|, i requires 0 <= i < |envelopes| => SendOne(dest, envelopes[i]))
    else
      var chunks := Partition(envelopes, BatchSize);
      seq(|chunks|, i requires 0 <= i < |chunks| => SendMany(dest, chunks[i]))
  }

  /** The operations for a sequence of groups, group after group. */
  function PlanGroups(groups: seq<(Destination, seq<Envelope>)>): seq<Step>
  {
    if groups == [] then []
    else
      var last := groups[|groups| - 1];
      PlanGroups(groups[..|groups| - 1]) + GroupSteps(last.0, last.1)
  }

  /** Everything a commit sends, in order (see PlanIsPermutation). */
  function Plan(pending: Pending): seq<Step>
  {
    PlanGroups(GroupBy(pending))
  }

  /** The envelopes a sequence of operations carries, in order. */
  function Carried(steps: seq<Step>): seq<Envelope>
  {
    if steps == [] then []
    else
      Carried(steps[..|steps| - 1]) +
      match steps[|steps| - 1]
      case SendOne(_, e) => [e]
      case SendMany(_, es) => es
  }

  function EnvelopesOf(pending: Pending): seq<Envelope>
  {
    seq(|pending|, i requires 0 <= i < |pending| => pending[i].1)
  }

  predicate NoDuplicates<T(==)>(s: seq<T>) {
    forall i, j :: 0 <= i < j < |s| ==> s[i] != s[j]
  }

  // ---------------------------------------------------------------- grouping

  /** A destination is a group key exactly when some pending pair is addressed to it. */
  lemma {:induction false} DestinationsMembership(pending: Pending, dest: Destination)
    ensures dest in Destinations(pending) <==> exists i :: 0 <= i < |pending| && pending[i].0 == dest
  {
    if pending != [] {
      var init := pending[..|pending| - 1];
      DestinationsMembership(init, dest);
      if dest in Destinations(pending) && dest !in Destinations(init) {
        assert pending[|pending| - 1].0 == dest;
      }
      if exists i :: 0 <= i < |pending| && pending[i].0 == dest {
        var i :| 0 <= i < |pending| && pending[i].0 == dest;
        if i < |pending| - 1 {
          assert init[i].0 == dest;
        }
      }
    }
  }

  /** No destination gets two groups. */
  lemma {:induction false} DestinationsDistinct(pending: Pending)
    ensures NoDuplicates(Destinations(pending))
  {
    if pending != [] {
      DestinationsDistinct(pending[..|pending| - 1]);
    }
  }

  /** First-occurrence order: the groups of any prefix of the batch come first, in the same order. */
  lemma {:induction false} DestinationsPrefix(pending: Pending, k: nat)
    requires k <= |pending|
    ensures Destinations(pending[..k]) <= Destinations(pending)
  {
    if k < |pending| {
      DestinationsPrefix(pending[..|pending| - 1], k);
      assert pending[..|pending| - 1][..k] == pending[..k];
    } else {
      assert pending[..k] == pending;
    }
  }

  /** Filter distributes over concatenation ... */
  lemma {:induction false} FilterAppend(a: Pending, b: Pending, dest: Destination)
    ensures Filter(a + b, dest) == Filter(a, dest) + Filter(b, dest)
  {
    if b == [] {
      assert a + b == a;
    } else {
      assert (a + b)[..|a + b| - 1] == a + b[..|b| - 1];
      FilterAppend(a, b[..|b| - 1], dest);
    }
  }

  /** ... and keeps exactly the pairs addressed to dest: together, relative order is kept. */
  lemma FilterSingle(d: Destination, e: Envelope, dest: Destination)
    ensures Filter([(d, e)], dest) == if d == dest then [e] else []
  {
    assert [(d, e)][..0] == [];
  }

  /** A group is never empty. */
  lemma {:induction false} FilterNonEmpty(pending: Pending, dest: Destination)
    ensures Filter(pending, dest) != [] <==> dest in Destinations(pending)
  {
    if pending != [] {
      FilterNonEmpty(pending[..|pending| - 1], dest);
    }
  }

  /** One non-empty group per destination, no destination twice, each holding
      exactly that destination's envelopes; no groups exactly for an empty batch. */
  lemma GroupByGroups(pending: Pending)
    ensures var r := GroupBy(pending);
      && (forall i, j :: 0 <= i < j < |r| ==> r[i].0 != r[j].0)
      && (forall i :: 0 <= i < |r| ==> r[i].1 == Filter(pending, r[i].0) && r[i].1 != [])
      && (r == [] <==> pending == [])
  {
    var r := GroupBy(pending);
    DestinationsDistinct(pending);
    forall i | 0 <= i < |r| ensures r[i].1 != [] {
      FilterNonEmpty(pending, r[i].0);
    }
    if pending != [] {
      DestinationsMembership(pending, pending[0].0);
    }
  }

  /** A batch addressed to a single destination forms a single group holding all of it. */
  lemma {:induction false} SingleDestination(pending: Pending, dest: Destination)
    requires pending != []
    requires forall i :: 0 <= i < |pending| ==> pending[i].0 == dest
    ensures Destinations(pending) == [dest]
    ensures Filter(pending, dest) == EnvelopesOf(pending)
    ensures GroupBy(pending) == [(dest, EnvelopesOf(pending))]
  {
    var init := pending[..|pending| - 1];
    if init == [] {
      assert Destinations(init) == [] && Filter(init, dest) == [];
    } else {
      SingleDestination(init, dest);
      assert EnvelopesOf(pending) == EnvelopesOf(init) + [pending[|pending| - 1].1];
    }
  }

  // --------------------------------------------------------------- partition

  /** Chunking loses and reorders nothing. */
  lemma {:induction false} PartitionFlatten<T>(s: seq<T>, n: nat)
    requires n > 0
    ensures Flatten(Partition(s, n)) == s
    decreases |s|
  {
    if s != [] && |s| > n {
      PartitionFlatten(s[n..], n);
      assert s == s[..n] + s[n..];
    }
  }

  /** Every chunk holds n elements except the last, which holds between 1 and n. */
  lemma {:induction false} PartitionSizes<T>(s: seq<T>, n: nat)
    requires n > 0
    ensures var p := Partition(s, n);
      && (forall i :: 0 <= i < |p| - 1 ==> |p[i]| == n)
      && (p != [] ==> 0 < |p[|p| - 1]| <= n)
      && (p == [] <==> s == [])
    decreases |s|
  {
    if s != [] && |s| > n {
      PartitionSizes(s[n..], n);
    }
  }

  // -------------------------------------------------------------------- plan

  lemma {:induction false} CarriedAppend(a: seq<Step>, b: seq<Step>)
    ensures Carried(a + b) == Carried(a) + Carried(b)
  {
    if b == [] {
      assert a + b == a;
    } else {
      assert (a + b)[..|a + b| - 1] == a + b[..|b| - 1];
      CarriedAppend(a, b[..|b| - 1]);
    }
  }

  lemma {:induction false} CarriedChunks(dest: Destination, chunks: seq<seq<Envelope>>)
    ensures Carried(seq(|chunks|, i requires 0 <= i < |chunks| => SendMany(dest, chunks[i]))) == Flatten(chunks)
  {
    var steps := seq(|chunks|, i requires 0 <= i < |chunks| => SendMany(dest, chunks[i]));
    if chunks != [] {
      var rest := seq(|chunks| - 1, i requires 0 <= i < |chunks| - 1 => SendMany(dest, chunks[1..][i]));
      CarriedChunks(dest, chunks[1..]);
      assert steps == [SendMany(dest, chunks[0])] + rest;
      CarriedAppend([SendMany(dest, chunks[0])], rest);
      assert Carried([SendMany(dest, chunks[0])]) == chunks[0] by {
        assert [SendMany(dest, chunks[0])][..0] == [];
      }
    }
  }

  lemma {:induction false} CarriedSingles(dest: Destination, envelopes: seq<Envelope>)
    ensures Carried(seq(|envelopes|, i requires 0 <= i < |envelopes| => SendOne(dest, envelopes[i]))) == envelopes
  {
    var steps := seq(|envelopes|, i requires 0 <= i < |envelopes| => SendOne(dest, envelopes[i]));
    if envelopes != [] {
      var n := |envelopes| - 1;
      CarriedSingles(dest, envelopes[..n]);
      assert steps[..n] == seq(n, i requires 0 <= i < n => SendOne(dest, envelopes[..n][i]));
      assert envelopes == envelopes[..n] + [envelopes[n]];
    }
  }

  /** The operations for one group carry exactly that group's envelopes, in order,
      whichever way the group is sent. */
  lemma GroupStepsCarry(dest: Destination, envelopes: seq<Envelope>)
    ensures Carried(GroupSteps(dest, envelopes)) == envelopes
    ensures forall i :: 0 <= i < |GroupSteps(dest, envelopes)| ==> GroupSteps(dest, envelopes)[i].dest == dest
  {
    if |envelopes| < BatchThreshold {
      CarriedSingles(dest, envelopes);
    } else {
      CarriedChunks(dest, Partition(envelopes, BatchSize));
      PartitionFlatten(envelopes, BatchSize);
    }
  }

  /** A group below the threshold is sent as one single send per envelope, in order. */
  lemma SmallGroupSentIndividually(dest: Destination, envelopes: seq<Envelope>)
    requires |envelopes| < BatchThreshold
    ensures |GroupSteps(dest, envelopes)| == |envelopes|
    ensures forall i :: 0 <= i < |envelopes| ==> GroupSteps(dest, envelopes)[i] == SendOne(dest, envelopes[i])
  {
  }

  /** A group at or above the threshold is sent as chunk batches of BatchSize, in
      order, the last one possibly smaller, covering the group exactly. */
  lemma LargeGroupSentInChunks(dest: Destination, envelopes: seq<Envelope>)
    requires |envelopes| >= BatchThreshold
    ensures var steps := GroupSteps(dest, envelopes);
      && (forall i :: 0 <= i < |steps| ==> steps[i].SendMany? && steps[i].dest == dest)
      && (forall i :: 0 <= i < |steps| - 1 ==> |steps[i].envelopes| == BatchSize)
      && steps != [] && 0 < |steps[|steps| - 1].envelopes| <= BatchSize
      && Carried(steps) == envelopes
  {
    PartitionSizes(envelopes, BatchSize);
    GroupStepsCarry(dest, envelopes);
  }

  /** 250 envelopes to one destination: three batches of 100, 100 and 50, in order. */
  lemma TwoHundredFiftyToOneDestination(pending: Pending, dest: Destination)
    requires |pending| == 250
    requires forall i :: 0 <= i < |pending| ==> pending[i].0 == dest
    ensures var es := EnvelopesOf(pending);
      Plan(pending) == [SendMany(dest, es[..100]), SendMany(dest, es[100..200]), SendMany(dest, es[200..])]
  {
    SingleDestination(pending, dest);
    var es := EnvelopesOf(pending);
    assert PlanGroups(GroupBy(pending)) == PlanGroups([]) + GroupSteps(dest, es);
    assert es[100..][..100] == es[100..200];
    assert es[100..][100..] == es[200..];
    assert Partition(es[200..], BatchSize) == [es[200..]];
    assert Partition(es[100..], BatchSize) == [es[100..200], es[200..]];
    assert Partition(es, BatchSize) == [es[..100], es[100..200], es[200..]];
  }

  /** 40 envelopes to one destination: 40 single sends, in order. */
  lemma FortyToOneDestination(pending: Pending, dest: Destination)
    requires |pending| == 40
    requires forall i :: 0 <= i < |pending| ==> pending[i].0 == dest
    ensures |Plan(pending)| == 40
    ensures forall i :: 0 <= i < 40 ==> Plan(pending)[i] == SendOne(dest, pending[i].1)
  {
    SingleDestination(pending, dest);
    assert PlanGroups(GroupBy(pending)) == PlanGroups([]) + GroupSteps(dest, EnvelopesOf(pending));
  }

  /** Exactly 100 envelopes to one destination: one batch holding all of them. */
  lemma HundredToOneDestination(pending: Pending, dest: Destination)
    requires |pending| == 100
    requires forall i :: 0 <= i < |pending| ==> pending[i].0 == dest
    ensures Plan(pending) == [SendMany(dest, EnvelopesOf(pending))]
  {
    SingleDestination(pending, dest);
    assert PlanGroups(GroupBy(pending)) == PlanGroups([]) + GroupSteps(dest, EnvelopesOf(pending));
  }

  /** The plan carries every destination's group, group after group in first-occurrence order. */
  lemma {:induction false} PlanGroupsCarry(groups: seq<(Destination, seq<Envelope>)>)
    ensures Carried(PlanGroups(groups)) == Flatten(seq(|groups|, i requires 0 <= i < |groups| => groups[i].1))
  {
    var flat := seq(|groups|, i requires 0 <= i < |groups| => groups[i].1);
    if groups != [] {
      var n := |groups| - 1;
      var init := groups[..n];
      var (dest, envelopes) := groups[n];
      var last := GroupSteps(dest, envelopes);
      var initFlat := seq(n, i requires 0 <= i < n => init[i].1);
      assert Carried(PlanGroups(groups)) == Flatten(initFlat) + envelopes by {
        assert PlanGroups(groups) == PlanGroups(init) + last;
        CarriedAppend(PlanGroups(init), last);
        PlanGroupsCarry(init);
        GroupStepsCarry(dest, envelopes);
      }
      assert Flatten(flat) == Flatten(initFlat) + envelopes by {
        assert flat == initFlat + [envelopes];
        FlattenAppend(initFlat, [envelopes]);
        assert [envelopes][1..] == [];
      }
    }
  }

  /** The groups are planned one after another: group i's operations follow those of the groups before it. */
  lemma PlanGroupsSnoc(groups: seq<(Destination, seq<Envelope>)>, i: nat)
    requires i < |groups|
    ensures PlanGroups(groups[..i + 1]) == PlanGroups(groups[..i]) + GroupSteps(groups[i].0, groups[i].1)
  {
    assert groups[..i + 1][..i] == groups[..i];
  }

  /** The plan of the first i groups is a prefix of the whole plan. */
  lemma PlanGroupsPrefix(groups: seq<(Destination, seq<Envelope>)>, i: nat)
    requires i <= |groups|
    ensures |PlanGroups(groups[..i])| <= |PlanGroups(groups)|
    ensures PlanGroups(groups)[..|PlanGroups(groups[..i])|] == PlanGroups(groups[..i])
  {
    assert groups == groups[..i] + groups[i..];
    PlanGroupsAppend(groups[..i], groups[i..]);
  }

  /** Planning distributes over concatenation of the groups. */
  lemma {:induction false} PlanGroupsAppend(a: seq<(Destination, seq<Envelope>)>, b: seq<(Destination, seq<Envelope>)>)
    ensures PlanGroups(a + b) == PlanGroups(a) + PlanGroups(b)
  {
    if b == [] {
      assert a + b == a;
    } else {
      var n := |b| - 1;
      assert (a + b)[..|a + b| - 1] == a + b[..n];
      PlanGroupsAppend(a, b[..n]);
      assert PlanGroups(a + b) == PlanGroups(a + b[..n]) + GroupSteps(b[n].0, b[n].1);
      assert PlanGroups(b) == PlanGroups(b[..n]) + GroupSteps(b[n].0, b[n].1);
    }
  }

  lemma {:induction false} FlattenAppend<T>(a: seq<seq<T>>, b: seq<seq<T>>)
    ensures Flatten(a + b) == Flatten(a) + Flatten(b)
  {
    if a != [] {
      assert (a + b)[1..] == a[1..] + b;
      FlattenAppend(a[1..], b);
    } else {
      assert a + b == b;
    }
  }

  // ------------------------------------------------ nothing lost or duplicated

  /** The groups of the given destinations, one after the other. */
  function FlatFilters(ds: seq<Destination>, pending: Pending): seq<Envelope>
  {
    if ds == [] then [] else Filter(pending, ds[0]) + FlatFilters(ds[1..], pending)
  }

  lemma {:induction false} FlatFiltersSnoc(ds: seq<Destination>, d: Destination, pending: Pending)
    ensures FlatFilters(ds + [d], pending) == FlatFilters(ds, pending) + Filter(pending, d)
  {
    if ds == [] {
      assert [d][1..] == [];
    } else {
      assert (ds + [d])[1..] == ds[1..] + [d];
      FlatFiltersSnoc(ds[1..], d, pending);
    }
  }

  lemma {:induction false} FlatFiltersExtend(ds: seq<Destination>, pending: Pending, d: Destination, e: Envelope)
    requires NoDuplicates(ds)
    ensures multiset(FlatFilters(ds, pending + [(d, e)])) ==
            multiset(FlatFilters(ds, pending)) + (if d in ds then multiset{e} else multiset{})
  {
    if ds != [] {
      var q := pending + [(d, e)];
      var rest := ds[1..];
      assert q[..|q| - 1] == pending;
      assert Filter(q, ds[0]) == Filter(pending, ds[0]) + (if d == ds[0] then [e] else []);
      assert NoDuplicates(rest);
      FlatFiltersExtend(rest, pending, d, e);
      assert FlatFilters(ds, q) == Filter(q, ds[0]) + FlatFilters(rest, q);
      assert FlatFilters(ds, pending) == Filter(pending, ds[0]) + FlatFilters(rest, pending);
      if d == ds[0] {
        assert d !in rest;
      } else {
        assert d in ds <==> d in rest;
      }
    }
  }

  /** Grouping is a permutation: every pending envelope lands in exactly one group. */
  lemma {:induction false} GroupingIsPermutation(pending: Pending)
    ensures multiset(FlatFilters(Destinations(pending), pending)) == multiset(EnvelopesOf(pending))
  {
    if pending != [] {
      var n := |pending| - 1;
      var init := pending[..n];
      var (d, e) := pending[n];
      assert pending == init + [(d, e)];
      var ds := Destinations(init);
      assert pending[..n] == init;
      GroupingIsPermutation(init);
      DestinationsDistinct(init);
      FlatFiltersExtend(ds, init, d, e);
      assert EnvelopesOf(pending) == EnvelopesOf(init) + [e];
      var before := multiset(FlatFilters(ds, init));
      assert before == multiset(EnvelopesOf(init));
      if d in ds {
        assert Destinations(pending) == ds;
        assert multiset(FlatFilters(ds, pending)) == before + multiset{e};
      } else {
        assert Destinations(pending) == ds + [d];
        FlatFiltersSnoc(ds, d, pending);
        FilterNonEmpty(init, d);
        assert Filter(pending, d) == Filter(init, d) + [e] == [e];
        assert multiset(FlatFilters(ds, pending)) == before;
      }
    }
  }

  lemma {:induction false} FlattenFilters(ds: seq<Destination>, pending: Pending)
    ensures Flatten(seq(|ds|, i requires 0 <= i < |ds| => Filter(pending, ds[i]))) == FlatFilters(ds, pending)
  {
    var fs := seq(|ds|, i requires 0 <= i < |ds| => Filter(pending, ds[i]));
    if ds != [] {
      assert fs[1..] == seq(|ds[1..]|, i requires 0 <= i < |ds[1..]| => Filter(pending, ds[1..][i]));
      FlattenFilters(ds[1..], pending);
    }
  }

  /** The plan carries exactly the pending envelopes, each once (order changes only across destinations). */
  lemma PlanIsPermutation(pending: Pending)
    ensures multiset(Carried(Plan(pending))) == multiset(EnvelopesOf(pending))
  {
    var groups := GroupBy(pending);
    var ds := Destinations(pending);
    var carried := Carried(PlanGroups(groups));
    assert carried == FlatFilters(ds, pending) by {
      PlanGroupsCarry(groups);
      assert seq(|groups|, i requires 0 <= i < |groups| => groups[i].1) ==
             seq(|ds|, i requires 0 <= i < |ds| => Filter(pending, ds[i]));
      FlattenFilters(ds, pending);
    }
    GroupingIsPermutation(pending);
  }
}
