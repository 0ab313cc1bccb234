/** A table sent in several sections, received in any order and with any repeats. */
module AitReassembly {
  import opened Common
  import opened AitModel
  import opened AitDescriptors
  import opened AitSyntax
  import opened AitMask
  import opened AitSections
  import opened Arrivals

  /** What `Ait::Get` returns (`completed`) and what is still being collected. */
  datatype Collector = Collector(partial: Option<Table>, completed: Option<Table>)

  ghost function Feed(c: Collector, s: Section): Collector
    requires IsNewsIsAddable(c.partial, s)
  {
    var partial := PartialAfter(c.partial, s);
    Collector(partial, if Completes(c.partial, s) then partial else c.completed)
  }

  /** Whatever sections arrive, an incomplete table is never exposed. */
  lemma CompletedTablesAreComplete(c: Collector, s: Section)
    requires IsNewsIsAddable(c.partial, s)
    requires c.completed.Some? ==> c.completed.value.complete
    ensures Feed(c, s).completed.Some? ==> Feed(c, s).completed.value.complete
    ensures c.completed.Some? ==> Feed(c, s).completed.Some?
  {
  }

  // ---------------------------------------------------------------- one version of a table

  predicate IdsAreDisjoint(a: seq<Entry>, b: seq<Entry>) {
    forall i, j | 0 <= i < |a| && 0 <= j < |b| :: a[i].appId != b[j].appId
  }

  predicate IsSectionOf(s: Section, version: byte, number: nat, last: nat) {
    IsSection(s) && s.appType == HBBTV_APPLICATION && s.version == version && s.number == number && s.last == last
    && DistinctIds(s.entries)
  }

  ghost function Groups(secs: seq<Section>): (groups: seq<seq<App>>)
    requires forall k | 0 <= k < |secs| :: AreEntries(secs[k].entries)
    ensures |groups| == |secs|
    ensures forall k | 0 <= k < |secs| :: groups[k] == EntryApps(secs[k].entries)
  {
    seq(|secs|, k requires 0 <= k < |secs| => EntryApps(secs[k].entries))
  }

  /** Sections 0 to `|secs| - 1` of one version of one table, with all application ids different. */
  ghost predicate Broadcast(secs: seq<Section>) {
    && 0 < |secs| <= 0x100
    && (forall k | 0 <= k < |secs| :: IsSectionOf(secs[k], secs[0].version, k, |secs| - 1))
    && (forall k, l | 0 <= k < |secs| && 0 <= l < |secs| && k != l :: IdsAreDisjoint(secs[k].entries, secs[l].entries))
    && Count(Groups(secs), |secs|) <= MAX_APPS
  }

  lemma SectionOf(secs: seq<Section>, k: nat)
    requires Broadcast(secs) && k < |secs|
    ensures IsSection(secs[k]) && IsSectionOf(secs[k], secs[0].version, k, |secs| - 1)
    ensures Groups(secs)[k] == EntryApps(secs[k].entries) && |Groups(secs)| == |secs|
    ensures forall l | 0 <= l < |secs| && l != k :: IdsAreDisjoint(secs[l].entries, secs[k].entries)
  {
  }

  ghost predicate HasNumbers(mask: seq<bv8>, order: seq<nat>)
    requires |mask| == MASK_BYTES
  {
    forall n: byte :: n in Received(mask) <==> n in order
  }

  lemma MarkNumber(mask: seq<bv8>, order: seq<nat>, n: byte)
    requires |mask| == MASK_BYTES && HasNumbers(mask, order)
    ensures HasNumbers(Mark(mask, n), order + [n])
  {
    MarkAddsOne(mask, n);
  }

  lemma CompleteWhenAllArrived(mask: seq<bv8>, order: seq<nat>, n: byte, last: byte)
    requires |mask| == MASK_BYTES && HasNumbers(mask, order) && n in order && Within(order, last + 1)
    ensures CompleteBy(Received(mask), n, last) <==> AllArrived(order, last + 1)
  {
    if CompleteBy(Received(mask), n, last) {
      forall k | 0 <= k < last + 1 ensures k in order {
        var b: byte := k;
        assert last != 0 ==> b in Received(mask);
      }
    }
    if AllArrived(order, last + 1) {
      forall k: byte | last < k ensures k !in Received(mask) {
        assert k !in order;
      }
    }
  }

  /** A table that holds exactly the sections numbered by `order`. */
  ghost predicate Holds(secs: seq<Section>, order: seq<nat>, t: Table)
    requires Broadcast(secs) && Within(order, |secs|)
  {
    && IsTable(t)
    && t.version == secs[0].version
    && HasNumbers(t.mask, order)
    && Within(Firsts(order), |secs|)
    && t.apps == Gather(Groups(secs), Firsts(order))
  }

  lemma NewIdsAreUnknown(secs: seq<Section>, order: seq<nat>, t: Table, k: nat)
    requires Broadcast(secs) && Within(order, |secs|) && k < |secs| && k !in order
    requires Holds(secs, order, t)
    ensures NoneKnown(t.apps, secs[k].entries)
  {
    hide HasNumbers;
    var es := secs[k].entries;
    SectionOf(secs, k);
    forall i, a | 0 <= i < |es| && 0 <= a < |t.apps| ensures t.apps[a].appId != es[i].appId {
      var l, j := GatheredFrom(Groups(secs), Firsts(order), a);
      FirstsKeepElements(order);
      SectionOf(secs, l);
      EntryIsPlain(secs[l].entries[j]);
      assert IdsAreDisjoint(secs[l].entries, es);
    }
  }

  lemma NewAppsAreAdded(t: Table, s: Section)
    requires CanAdd(Some(t), s) && t.version == s.version && NoneKnown(t.apps, s.entries) && DistinctIds(s.entries)
    ensures AppsWith(Some(t), s) == t.apps + EntryApps(s.entries)
  {
    NewEntriesAreAppended(t.apps, s.entries);
    hide IsSection, EntryApps, ReadEntries;
    if s.entries == [] {
      assert EntryApps(s.entries) == [];
      assert t.apps + [] == t.apps;
    } else {
      assert !Knows(t.apps, s.entries[0].appId);
    }
  }

  lemma NewSectionIsAddable(secs: seq<Section>, order: seq<nat>, t: Table, k: nat)
    requires Broadcast(secs) && Within(order, |secs|) && k < |secs|
    requires Holds(secs, order, t) && k !in order
    ensures CanAdd(Some(t), secs[k]) && IsNews(Some(t), secs[k])
    ensures AppsWith(Some(t), secs[k]) == t.apps + EntryApps(secs[k].entries)
  {
    var s := secs[k];
    SectionOf(secs, k);
    NewIdsAreUnknown(secs, order, t, k);
    RoomForOneMore(Groups(secs), order, k);
    NewEntriesAreAppended(t.apps, s.entries);
    assert s.number !in Received(t.mask);
    hide IsSection, Received, Gather, Firsts, DistinctIds, NoneKnown, AllKnown, Broadcast, Groups, Count, EntryApps,
      Within, ReadEntries;
    NewAppsAreAdded(t, s);
  }

  lemma NewTable(secs: seq<Section>, order: seq<nat>, t: Table, k: nat)
    requires Broadcast(secs) && Within(order, |secs|) && k < |secs|
    requires Holds(secs, order, t) && k !in order
    ensures Within(order + [k], |secs|)
    ensures IsNewsIsAddable(Some(t), secs[k]) && IsNews(Some(t), secs[k])
    ensures Holds(secs, order + [k], AddSection(Some(t), secs[k]))
    ensures AddSection(Some(t), secs[k]).complete <==> AllArrived(order + [k], |secs|)
  {
    var s := secs[k];
    SectionOf(secs, k);
    NewSectionIsAddable(secs, order, t, k);
    hide IsSection, CompleteBy, Mark, Received, Gather, Firsts, HasNumbers, CanAdd, IsNews,
      Broadcast, Groups, Count, EntryApps, AllArrived, Within, AppsWith;
    GatherOneMore(Groups(secs), order, k);
    MarkNumber(t.mask, order, s.number);
    WithinOneMore(order, k, |secs|);
    assert k in order + [k];
    CompleteWhenAllArrived(Mark(t.mask, s.number), order + [k], s.number, s.last);
  }

  lemma WithinOneMore(order: seq<nat>, k: nat, n: nat)
    requires Within(order, n) && k < n
    ensures Within(order + [k], n)
  {
  }

  // ---------------------------------------------------------------- runs

  /** No table of this version is under way yet. */
  predicate StartsFresh(c: Collector, secs: seq<Section>)
    requires secs != []
  {
    c.partial.Some? ==> IsTable(c.partial.value) && c.partial.value.version != secs[0].version
  }

  /** What has been collected after the sections numbered by `order` have arrived, in that order. */
  ghost predicate Reached(c: Collector, secs: seq<Section>, order: seq<nat>, r: Collector)
    requires Broadcast(secs) && Within(order, |secs|)
  {
    if order == [] then r == c else
      && r.partial.Some?
      && Holds(secs, order, r.partial.value)
      && (r.partial.value.complete <==> AllArrived(order, |secs|))
      && r.completed == if AllArrived(order, |secs|) then r.partial else c.completed
  }

  /** The section `k` is processed next and is reported as completing the table, or not. */
  ghost predicate StepsTo(c: Collector, secs: seq<Section>, order: seq<nat>, r: Collector, k: nat)
    requires Broadcast(secs) && Within(order, |secs|) && k < |secs|
  {
    && Within(order + [k], |secs|)
    && IsNewsIsAddable(r.partial, secs[k])
    && Reached(c, secs, order + [k], Feed(r, secs[k]))
    && (Completes(r.partial, secs[k]) <==> AllArrived(order + [k], |secs|) && !AllArrived(order, |secs|))
  }

  lemma RepeatIsNoNews(secs: seq<Section>, order: seq<nat>, t: Table, k: nat)
    requires Broadcast(secs) && Within(order, |secs|) && k < |secs|
    requires Holds(secs, order, t) && k in order
    ensures Within(order + [k], |secs|)
    ensures !IsNews(Some(t), secs[k])
    ensures Holds(secs, order + [k], t)
    ensures AllArrived(order + [k], |secs|) <==> AllArrived(order, |secs|)
  {
    SectionOf(secs, k);
    assert secs[k].number in Received(t.mask);
    hide Broadcast, Received, Gather, Firsts, IsSection, IsSectionOf;
    WithinOneMore(order, k, |secs|);
    FirstsOfRepeat(order, k);
    assert forall n :: n in order + [k] <==> n in order;
  }

  lemma RepeatedArrival(c: Collector, secs: seq<Section>, order: seq<nat>, r: Collector, k: nat)
    requires Broadcast(secs) && Within(order, |secs|) && k < |secs|
    requires Reached(c, secs, order, r) && k in order
    ensures StepsTo(c, secs, order, r, k)
  {
    assert IsTable(r.partial.value);
    hide Broadcast, Holds, AllArrived, Within, IsNews, IsTable;
    RepeatIsNoNews(secs, order, r.partial.value, k);
    assert Feed(r, secs[k]) == r;
  }

  lemma FirstIsAddable(c: Collector, secs: seq<Section>, k: nat)
    requires Broadcast(secs) && k < |secs| && StartsFresh(c, secs)
    ensures Within([k], |secs|)
    ensures IsNewsIsAddable(c.partial, secs[k]) && IsNews(c.partial, secs[k])
    ensures CanAdd(c.partial, secs[k])
    ensures AppsWith(c.partial, secs[k]) == EntryApps(secs[k].entries)
    ensures MaskWith(c.partial, secs[k]) == Mark(EmptyMask(), secs[k].number)
  {
    hide CompleteBy, Mark, Received, EncodeEntries, ReadEntries, AllKnown;
    SectionOf(secs, k);
    RoomForOneMore(Groups(secs), [], k);
    assert [] + EntryApps(secs[k].entries) == EntryApps(secs[k].entries);
    hide IsSection, IsSectionOf, Gather, Firsts, DistinctIds, Broadcast, Groups, Count, EntryApps;
  }

  lemma FirstTable(c: Collector, secs: seq<Section>, k: nat)
    requires Broadcast(secs) && k < |secs| && StartsFresh(c, secs)
    ensures Within([k], |secs|)
    ensures IsNewsIsAddable(c.partial, secs[k]) && IsNews(c.partial, secs[k])
    ensures Holds(secs, [k], AddSection(c.partial, secs[k]))
    ensures AddSection(c.partial, secs[k]).complete <==> AllArrived([k], |secs|)
  {
    var s := secs[k];
    FirstIsAddable(c, secs, k);
    SectionOf(secs, k);
    EmptyMaskIsEmpty();
    GatherOneMore(Groups(secs), [], k);
    MarkNumber(EmptyMask(), [], s.number);
    assert [] + [k] == [k] && [] + EntryApps(s.entries) == EntryApps(s.entries);
    assert Gather(Groups(secs), Firsts([])) == [];
    hide IsSection, IsSectionOf, CompleteBy, Mark, Received, Gather, Firsts, DistinctIds, HasNumbers,
      Broadcast, Groups, Count, EntryApps, AllArrived, CanAdd, IsNews, AppsWith, MaskWith, StartsFresh;
    CompleteWhenAllArrived(Mark(EmptyMask(), s.number), [k], s.number, s.last);
  }

  lemma FirstArrival(c: Collector, secs: seq<Section>, k: nat)
    requires Broadcast(secs) && k < |secs| && StartsFresh(c, secs)
    ensures StepsTo(c, secs, [], c, k)
  {
    hide Holds, IsNewsIsAddable, Broadcast, AddSection, IsNews;
    FirstTable(c, secs, k);
    assert [] + [k] == [k] && 0 !in [];
    assert !AllArrived([], |secs|) by { NothingArrived(secs); }
  }

  lemma NothingArrived(secs: seq<Section>)
    requires Broadcast(secs)
    ensures !AllArrived([], |secs|)
  {
    assert 0 !in [];
  }

  lemma NewArrival(c: Collector, secs: seq<Section>, order: seq<nat>, r: Collector, k: nat)
    requires Broadcast(secs) && Within(order, |secs|) && k < |secs|
    requires Reached(c, secs, order, r) && order != [] && k !in order
    ensures StepsTo(c, secs, order, r, k)
  {
    hide Holds, IsNewsIsAddable, Broadcast, Within, AddSection, IsNews;
    NewTable(secs, order, r.partial.value, k);
    assert !AllArrived(order, |secs|);
  }

  /** One more arrival: the table is reported exactly when the last missing section arrives. */
  lemma Step(c: Collector, secs: seq<Section>, order: seq<nat>, r: Collector, k: nat)
    requires Broadcast(secs) && Within(order, |secs|) && k < |secs| && StartsFresh(c, secs)
    requires Reached(c, secs, order, r)
    ensures StepsTo(c, secs, order, r, k)
  {
    if order == [] {
      FirstArrival(c, secs, k);
    } else if k in order {
      RepeatedArrival(c, secs, order, r, k);
    } else {
      NewArrival(c, secs, order, r, k);
    }
  }

  lemma Split(order: seq<nat>, n: nat)
    requires Within(order, n) && order != []
    ensures Within(order[..|order| - 1], n) && order[|order| - 1] < n
    ensures order[..|order| - 1] + [order[|order| - 1]] == order
  {
  }

  ghost function Run(c: Collector, secs: seq<Section>, order: seq<nat>): (r: Collector)
    requires Broadcast(secs) && Within(order, |secs|) && StartsFresh(c, secs)
    ensures Reached(c, secs, order, r)
  {
    hide Broadcast, Within, StartsFresh, Feed, IsNewsIsAddable;
    if order == [] then c else
      Split(order, |secs|);
      var init, last := order[..|order| - 1], order[|order| - 1];
      var before := Run(c, secs, init);
      Step(c, secs, init, before, last);
      Feed(before, secs[last])
  }

  lemma FinalTable(c: Collector, secs: seq<Section>, order: seq<nat>)
    requires Broadcast(secs) && StartsFresh(c, secs)
    requires Within(order, |secs|) && AllArrived(order, |secs|)
    ensures
      var t := Run(c, secs, order).completed;
      && t.Some? && Holds(secs, order, t.value) && t.value.complete
  {
    NothingArrived(secs);
    hide Broadcast, Within, AllArrived, StartsFresh, Holds;
    assert Reached(c, secs, order, Run(c, secs, order));
  }

  /** The table that results does not depend on the order of arrival, nor on what was repeated. */
  lemma OrderDoesNotMatter(c: Collector, secs: seq<Section>, order: seq<nat>, other: seq<nat>)
    requires Broadcast(secs) && StartsFresh(c, secs)
    requires Within(order, |secs|) && AllArrived(order, |secs|)
    requires Within(other, |secs|) && AllArrived(other, |secs|)
    ensures
      var a, b := Run(c, secs, order).completed, Run(c, secs, other).completed;
      && a.Some? && b.Some?
      && IsTable(a.value) && IsTable(b.value)
      && a.value.version == b.value.version
      && Received(a.value.mask) == Received(b.value.mask)
      && a.value.complete && b.value.complete
      && multiset(a.value.apps) == multiset(b.value.apps)
  {
    FinalTable(c, secs, order);
    FinalTable(c, secs, other);
    SameMembers(order, other, |secs|);
    hide Broadcast, AllArrived, Run, StartsFresh, Received, Gather, Total;
    GatherIsTotal(Groups(secs), order);
    GatherIsTotal(Groups(secs), other);
  }

  lemma SameMembers(order: seq<nat>, other: seq<nat>, n: nat)
    requires Within(order, n) && AllArrived(order, n) && Within(other, n) && AllArrived(other, n)
    ensures Elements(order) == Elements(other)
    ensures forall k :: k in order <==> k in other
  {
  }
}
