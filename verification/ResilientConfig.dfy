/** The shrinking configuration loop: build a configuration, and on a rejection drop the optional
    fields it names and try again.  The constructor is a function from fields to an outcome. */
module ResilientConfig {
  import opened Strings

  /** What constructing from some fields gives: a configuration, or an exception naming fields
      (sorted, each once). */
  datatype Attempt<C> = Built(config: C) | Rejected(named: seq<string>)

  type Constructor<!V, C> = map<string, V> -> Attempt<C>

  ghost predicate NamesOnce<V(!new), C>(construct: Constructor<V, C>) {
    forall m :: construct(m).Rejected? ==> NoDuplicates(construct(m).named)
  }

  /** How the loop ends: the outcome of the last attempt, the fields it was made with, and the
      fields dropped before it in order. */
  datatype Ending<V, C> = Ending(attempt: Attempt<C>, kept: map<string, V>, dropped: seq<string>)

  function Droppable<V>(named: seq<string>, kept: map<string, V>, optional: set<string>): (r: seq<string>)
    ensures forall k :: k in r <==> k in named && k in kept && k in optional
    ensures NoDuplicates(named) ==> NoDuplicates(r)
  {
    if named == [] then []
    else
      var front, last := named[..|named| - 1], named[|named| - 1];
      assert named == front + [last];
      Droppable(front, kept, optional) + if last in kept && last in optional then [last] else []
  }

  function Members(s: seq<string>): set<string> { set k | k in s }

  function Without<V>(m: map<string, V>, s: seq<string>): (r: map<string, V>)
    ensures r.Keys == m.Keys - Members(s)
    ensures forall k :: k in r ==> r[k] == m[k]
  {
    m - Members(s)
  }

  lemma Shrinks<V>(kept: map<string, V>, s: seq<string>)
    requires s != [] && forall k :: k in s ==> k in kept
    ensures |Without(kept, s).Keys| < |kept.Keys|
  {
    assert s[0] in kept;
    SmallerSet(Without(kept, s).Keys, kept.Keys, s[0]);
  }

  lemma SmallerSet(a: set<string>, b: set<string>, k: string)
    requires a <= b && k in b && k !in a
    ensures |a| < |b|
  {
    assert a <= b - {k};
    SubsetSize(a, b - {k});
  }

  lemma {:induction false} SubsetSize(a: set<string>, b: set<string>)
    requires a <= b
    ensures |a| <= |b|
  {
    if a != {} {
      var k :| k in a;
      SubsetSize(a - {k}, b - {k});
    }
  }

  function Shrink<V, C>(construct: Constructor<V, C>, optional: set<string>, kept: map<string, V>,
                        dropped: seq<string>): Ending<V, C>
    decreases |kept.Keys|
  {
    var attempt := construct(kept);
    if attempt.Built? then Ending(attempt, kept, dropped)
    else
      var unsupported := Droppable(attempt.named, kept, optional);
      if unsupported == [] then Ending(attempt, kept, dropped)
      else
        Shrinks(kept, unsupported);
        Shrink(construct, optional, Without(kept, unsupported), dropped + unsupported)
  }

  /** Kept and dropped fields partition the given ones, and only optional fields are dropped. */
  ghost predicate Partition<V>(given: map<string, V>, kept: map<string, V>, dropped: seq<string>,
                               optional: set<string>) {
    && NoDuplicates(dropped)
    && (forall k :: k in dropped ==> k in optional && k in given && k !in kept)
    && (forall k :: k in given <==> k in kept || k in dropped)
    && (forall k :: k in kept ==> kept[k] == given[k])
  }

  lemma PartitionStep<V>(given: map<string, V>, kept: map<string, V>, dropped: seq<string>, optional: set<string>,
                         more: seq<string>)
    requires Partition(given, kept, dropped, optional) && NoDuplicates(more)
    requires forall k :: k in more ==> k in kept && k in optional
    ensures Partition(given, Without(kept, more), dropped + more, optional)
  {
    forall i, j | 0 <= i < j < |dropped + more| ensures (dropped + more)[i] != (dropped + more)[j] {
      if i < |dropped| <= j { assert more[j - |dropped|] in more && dropped[i] in dropped; }
    }
  }

  ghost predicate EndsWell<V(!new), C>(construct: Constructor<V, C>, optional: set<string>, given: map<string, V>,
                                       e: Ending<V, C>) {
    && Partition(given, e.kept, e.dropped, optional)
    && e.attempt == construct(e.kept)
    && (e.attempt.Rejected? ==> Droppable(e.attempt.named, e.kept, optional) == [])
  }

  /** For every constructor: the loop ends, having dropped only optional fields, each once, and
      either built from what is left or was rejected for nothing it could drop. */
  lemma {:induction false} ShrinkPartitions<V(!new), C>(construct: Constructor<V, C>, optional: set<string>,
                                                  given: map<string, V>, kept: map<string, V>, dropped: seq<string>)
    requires NamesOnce(construct) && Partition(given, kept, dropped, optional)
    ensures EndsWell(construct, optional, given, Shrink(construct, optional, kept, dropped))
    decreases |kept.Keys|
  {
    if construct(kept).Rejected? {
      var unsupported := Droppable(construct(kept).named, kept, optional);
      if unsupported != [] {
        Shrinks(kept, unsupported);
        PartitionStep(given, kept, dropped, optional, unsupported);
        ShrinkPartitions(construct, optional, given, Without(kept, unsupported), dropped + unsupported);
      }
    }
  }

  /** A constructor that rejects exactly the given fields, and always names some of those present
      and no others. */
  ghost predicate RejectsExactly<V(!new), C>(construct: Constructor<V, C>, rejected: set<string>) {
    && (forall m :: construct(m).Built? <==> m.Keys !! rejected)
    && (forall m :: construct(m).Rejected? ==> exists k :: k in construct(m).named && k in m && k in rejected)
    && (forall m, k :: construct(m).Rejected? && k in construct(m).named && k in m ==> k in rejected)
  }

  lemma DropsRejected<V(!new), C>(construct: Constructor<V, C>, rejected: set<string>, optional: set<string>,
                                  kept: map<string, V>)
    requires RejectsExactly(construct, rejected) && construct(kept).Rejected?
    ensures forall k :: k in Droppable(construct(kept).named, kept, optional) ==> k in rejected
    ensures kept.Keys * rejected <= optional ==> Droppable(construct(kept).named, kept, optional) != []
  {
    var named := construct(kept).named;
    var k :| k in named && k in kept && k in rejected;
    assert k in optional ==> k in Droppable(named, kept, optional);
  }

  /** For such a constructor the loop builds exactly when every rejected field given is optional,
      and then from exactly the fields that are not rejected. */
  lemma {:induction false} ShrinkExactly<V(!new), C>(construct: Constructor<V, C>, rejected: set<string>,
                                                     optional: set<string>, kept: map<string, V>,
                                                     dropped: seq<string>)
    requires RejectsExactly(construct, rejected)
    ensures var e := Shrink(construct, optional, kept, dropped);
            && (e.attempt.Built? <==> kept.Keys * rejected <= optional)
            && (e.attempt.Built? ==> e.kept == kept - rejected)
    decreases |kept.Keys|
  {
    var attempt := construct(kept);
    if attempt.Built? {
      assert kept - rejected == kept;
    } else {
      var unsupported := Droppable(attempt.named, kept, optional);
      DropsRejected(construct, rejected, optional, kept);
      if unsupported == [] {
        assert !(kept.Keys * rejected <= optional);
      } else {
        var rest := Without(kept, unsupported);
        Shrinks(kept, unsupported);
        ShrinkExactly(construct, rejected, optional, rest, dropped + unsupported);
        assert rest.Keys * rejected <= optional <==> kept.Keys * rejected <= optional by {
          forall k | k in kept.Keys * rejected ensures k in rest.Keys || k in optional {
            if k !in rest { assert k in unsupported; }
          }
        }
        assert rest - rejected == kept - rejected;
      }
    }
  }

  method DropFields<V>(kept: map<string, V>, dropped: seq<string>, unsupported: seq<string>)
    returns (rest: map<string, V>, all: seq<string>)
    requires NoDuplicates(unsupported)
    requires forall k :: k in unsupported ==> k in kept
    requires forall k :: k in dropped ==> k !in kept
    ensures rest == Without(kept, unsupported) && all == dropped + unsupported
  {
    rest, all := kept, dropped;
    for i := 0 to |unsupported|
      invariant rest == Without(kept, unsupported[..i]) && all == dropped + unsupported[..i]
    {
      assert Members(unsupported[..i + 1]) == Members(unsupported[..i]) + {unsupported[i]};
      rest := rest - {unsupported[i]};
      if unsupported[i] !in all { all := all + [unsupported[i]]; }
    }
    assert unsupported[..|unsupported|] == unsupported;
  }

  /** The loop; `notified` is what the callback is told, if it is called. */
  method BuildResilientConfig<V(!new), C>(construct: Constructor<V, C>, given: map<string, V>, optional: set<string>)
    returns (attempt: Attempt<C>, notified: seq<string>)
    requires NamesOnce(construct)
    ensures var e := Shrink(construct, optional, given, []);
            attempt == e.attempt && notified == if e.attempt.Built? then e.dropped else []
  {
    var kept := given;
    var dropped: seq<string> := [];
    ghost var goal := Shrink(construct, optional, given, []);
    while true
      invariant Shrink(construct, optional, kept, dropped) == goal
      invariant Partition(given, kept, dropped, optional)
      decreases |kept.Keys|
    {
      attempt := construct(kept);
      if attempt.Built? { return attempt, dropped; }
      var unsupported := Droppable(attempt.named, kept, optional);
      if unsupported == [] { return attempt, []; }
      Shrinks(kept, unsupported);
      PartitionStep(given, kept, dropped, optional, unsupported);
      kept, dropped := DropFields(kept, dropped, unsupported);
    }
  }
}
