/** Which application ids a table sent in several sections ends up with, when an id may occur in several of them. */
module AitIds {
  import opened Common
  import opened AitModel
  import opened AitDescriptors
  import opened AitSyntax
  import opened AitMask
  import opened AitSections
  import opened Arrivals
  import opened AitReassembly

  /** Sections 0 to `|secs| - 1` of one version of one table; application ids may repeat within and across them. */
  ghost predicate Version(secs: seq<Section>) {
    && 0 < |secs| <= 0x100
    && forall k | 0 <= k < |secs| ::
         && IsSection(secs[k]) && secs[k].appType == HBBTV_APPLICATION && secs[k].version == secs[0].version
         && secs[k].number == k && secs[k].last == |secs| - 1
  }

  /** What has been collected after these arrivals, as long as the parser stays within each section. */
  ghost function Collected(c: Collector, secs: seq<Section>, order: seq<nat>): Option<Collector>
    requires Within(order, |secs|)
  {
    if order == [] then Some(c)
    else
      var init, last := order[..|order| - 1], order[|order| - 1];
      var before := Collected(c, secs, init);
      if before.Some? && IsNewsIsAddable(before.value.partial, secs[last])
      then Some(Feed(before.value, secs[last]))
      else None
  }

  ghost predicate HasEntry(es: seq<Entry>, id: uint16) {
    exists i | 0 <= i < |es| :: es[i].appId == id
  }

  /** `id` occurs in a section that has arrived. */
  ghost predicate Sent(secs: seq<Section>, order: seq<nat>, id: uint16)
    requires Within(order, |secs|)
  {
    exists k | k in order :: HasEntry(secs[k].entries, id)
  }

  /** A table with exactly the ids that have been sent, and the sections that have arrived. */
  ghost predicate HoldsIds(secs: seq<Section>, order: seq<nat>, t: Table)
    requires Version(secs) && Within(order, |secs|)
  {
    && IsTable(t) && t.version == secs[0].version
    && HasNumbers(t.mask, order)
    && (t.complete <==> AllArrived(order, |secs|))
    && forall id: uint16 :: Knows(t.apps, id) <==> Sent(secs, order, id)
  }

  ghost predicate ReachedIds(c: Collector, secs: seq<Section>, order: seq<nat>, r: Collector)
    requires Version(secs) && Within(order, |secs|)
  {
    if order == [] then r == c
    else
      && r.partial.Some? && HoldsIds(secs, order, r.partial.value)
      && (AllArrived(order, |secs|) ==> r.completed == r.partial)
  }

  lemma {:induction false} IdsAreRead(apps: seq<App>, es: seq<Entry>)
    requires AreEntries(es) && ReadEntries(apps, es).Some?
    ensures forall id: uint16 :: Knows(ReadEntries(apps, es).value, id) <==> Knows(apps, id) || HasEntry(es, id)
    decreases |es|
  {
    if es != [] {
      var next := ReadEntry(apps, es[0]).value;
      IdsStay(apps, es[0]);
      IdsAreRead(next, es[1..]);
      forall id: uint16 ensures HasEntry(es, id) <==> es[0].appId == id || HasEntry(es[1..], id) {
        EntryIsFirstOrLater(es, id);
      }
    }
  }

  lemma EntryIsFirstOrLater(es: seq<Entry>, id: uint16)
    requires es != []
    ensures HasEntry(es, id) <==> es[0].appId == id || HasEntry(es[1..], id)
  {
    assert forall i | 0 < i < |es| :: es[i] == es[1..][i - 1];
  }

  lemma EntryAppsHaveIds(es: seq<Entry>)
    requires AreEntries(es)
    ensures forall id: uint16 :: Knows(EntryApps(es), id) <==> HasEntry(es, id)
  {
    forall i | 0 <= i < |es| ensures EntryApps(es)[i].appId == es[i].appId {
      EntryIsPlain(es[i]);
    }
  }

  /** The ids of the table after one more section. */
  lemma IdsWith(partial: Option<Table>, s: Section)
    requires CanAdd(partial, s)
    ensures
      forall id: uint16 :: Knows(AppsWith(partial, s), id) <==>
        (Base(partial, s).Some? && Knows(partial.value.apps, id)) || HasEntry(s.entries, id)
  {
    if Base(partial, s).None? {
      EntryAppsHaveIds(s.entries);
    } else if AllKnown(partial.value.apps, s.entries) {
      forall id: uint16 | HasEntry(s.entries, id) ensures Knows(partial.value.apps, id) {
      }
    } else {
      IdsAreRead(partial.value.apps, s.entries);
    }
  }

  lemma SentOneMore(secs: seq<Section>, order: seq<nat>, k: nat)
    requires Within(order, |secs|) && k < |secs|
    ensures Within(order + [k], |secs|)
    ensures forall id: uint16 :: Sent(secs, order + [k], id) <==> Sent(secs, order, id) || HasEntry(secs[k].entries, id)
  {
    assert forall n :: n in order + [k] <==> n in order || n == k;
  }

  lemma RepeatedSection(secs: seq<Section>, order: seq<nat>, t: Table, k: nat)
    requires Version(secs) && Within(order, |secs|) && k < |secs| && k in order && HoldsIds(secs, order, t)
    ensures Within(order + [k], |secs|) && HoldsIds(secs, order + [k], t)
    ensures !IsNews(Some(t), secs[k])
    ensures AllArrived(order + [k], |secs|) <==> AllArrived(order, |secs|)
  {
    SentOneMore(secs, order, k);
    assert forall n :: n in order + [k] <==> n in order;
    assert secs[k].number in Received(t.mask);
    assert forall id: uint16 :: HasEntry(secs[k].entries, id) ==> Sent(secs, order, id);
  }

  /** One section more, of this version and not yet received, is added to `partial` or to nothing. */
  lemma NewSection(secs: seq<Section>, order: seq<nat>, partial: Option<Table>, k: nat)
    requires Version(secs) && Within(order, |secs|) && k < |secs| && k !in order
    requires CanAdd(partial, secs[k])
    requires if order == [] then Base(partial, secs[k]).None? else partial.Some? && HoldsIds(secs, order, partial.value)
    ensures Within(order + [k], |secs|) && HoldsIds(secs, order + [k], AddSection(partial, secs[k]))
  {
    var s := secs[k];
    IdsWith(partial, s);
    SentOneMore(secs, order, k);
    EmptyMaskIsEmpty();
    NoneSent(secs);
    MarkNumber(if order == [] then EmptyMask() else partial.value.mask, order, s.number);
    assert k in order + [k];
    hide HasEntry, Sent, Knows, CanAdd, AppsWith, Received, Mark, CompleteBy, AllArrived, HasNumbers;
    CompleteWhenAllArrived(MaskWith(partial, s), order + [k], s.number, s.last);
  }

  lemma NoneSent(secs: seq<Section>)
    ensures Within([], |secs|) && forall id: uint16 :: !Sent(secs, [], id)
  {
  }

  /** One more arrival; it is reported exactly when it is that of the last missing section. */
  lemma Arrival(c: Collector, secs: seq<Section>, order: seq<nat>, r: Collector, k: nat)
    requires Version(secs) && Within(order, |secs|) && k < |secs| && StartsFresh(c, secs)
    requires ReachedIds(c, secs, order, r) && IsNewsIsAddable(r.partial, secs[k])
    ensures Within(order + [k], |secs|) && ReachedIds(c, secs, order + [k], Feed(r, secs[k]))
    ensures Completes(r.partial, secs[k]) <==> AllArrived(order + [k], |secs|) && !AllArrived(order, |secs|)
  {
    var s := secs[k];
    assert IsSection(s) && s.appType == HBBTV_APPLICATION && s.version == secs[0].version && s.number == k;
    if k in order {
      RepeatedSection(secs, order, r.partial.value, k);
    } else {
      assert IsNews(r.partial, s) by {
        if order != [] {
          assert s.number !in Received(r.partial.value.mask);
        }
      }
      NewSection(secs, order, r.partial, k);
      assert !AllArrived(order, |secs|);
    }
  }

  lemma {:induction false} RunReaches(c: Collector, secs: seq<Section>, order: seq<nat>)
    requires Version(secs) && Within(order, |secs|) && StartsFresh(c, secs) && Collected(c, secs, order).Some?
    ensures ReachedIds(c, secs, order, Collected(c, secs, order).value)
    decreases |order|
  {
    hide Version, StartsFresh, ReachedIds, Feed, IsNewsIsAddable;
    if order == [] {
      NoArrivals(c, secs);
    } else {
      var init, last := order[..|order| - 1], order[|order| - 1];
      Split(order, |secs|);
      RunReaches(c, secs, init);
      Arrival(c, secs, init, Collected(c, secs, init).value, last);
    }
  }

  lemma NoArrivals(c: Collector, secs: seq<Section>)
    requires Version(secs)
    ensures Within([], |secs|) && ReachedIds(c, secs, [], c)
  {
  }

  /**
   * Whatever ids the sections share: once all have arrived a complete table is exposed whose application ids are those
   * in the sections, so they do not depend on the order of arrival nor on what was repeated.
   */
  lemma IdsDoNotDependOnOrder(c: Collector, secs: seq<Section>, order: seq<nat>)
    requires Version(secs) && Within(order, |secs|) && AllArrived(order, |secs|) && StartsFresh(c, secs)
    requires Collected(c, secs, order).Some?
    ensures
      var t := Collected(c, secs, order).value.completed;
      && t.Some? && t.value.complete && t.value.version == secs[0].version
      && forall id: uint16 :: Knows(t.value.apps, id) <==> exists k | 0 <= k < |secs| :: HasEntry(secs[k].entries, id)
  {
    assert 0 !in [];
    RunReaches(c, secs, order);
    assert forall k | 0 <= k < |secs| :: k in order;
    var t := Collected(c, secs, order).value.completed.value;
    forall id: uint16 ensures Knows(t.apps, id) <==> exists k | 0 <= k < |secs| :: HasEntry(secs[k].entries, id) {
      assert Knows(t.apps, id) <==> Sent(secs, order, id);
    }
  }

  /** Whether `ProcessSection` returns true for arrival number `i`. */
  ghost predicate UpdatesAt(c: Collector, secs: seq<Section>, order: seq<nat>, i: nat)
    requires Within(order, |secs|) && i < |order|
  {
    var before := Collected(c, secs, order[..i]);
    && before.Some? && IsNewsIsAddable(before.value.partial, secs[order[i]])
    && Completes(before.value.partial, secs[order[i]])
  }

  lemma {:induction false} PrefixCollected(c: Collector, secs: seq<Section>, order: seq<nat>, i: nat)
    requires Within(order, |secs|) && i < |order| && Collected(c, secs, order).Some?
    ensures Collected(c, secs, order[..i]).Some?
    ensures IsNewsIsAddable(Collected(c, secs, order[..i]).value.partial, secs[order[i]])
    decreases |order|
  {
    var last := |order| - 1;
    if i < last {
      PrefixCollected(c, secs, order[..last], i);
      assert order[..last][..i] == order[..i];
    }
  }

  lemma UpdatesAtTheLastMissing(c: Collector, secs: seq<Section>, order: seq<nat>, i: nat)
    requires Version(secs) && Within(order, |secs|) && StartsFresh(c, secs) && Collected(c, secs, order).Some?
    requires i < |order|
    ensures UpdatesAt(c, secs, order, i) <==> AllArrived(order[..i + 1], |secs|) && !AllArrived(order[..i], |secs|)
  {
    hide Version, StartsFresh, ReachedIds, IsNewsIsAddable, Completes, AllArrived;
    PrefixCollected(c, secs, order, i);
    RunReaches(c, secs, order[..i]);
    Arrival(c, secs, order[..i], Collected(c, secs, order[..i]).value, order[i]);
    assert order[..i] + [order[i]] == order[..i + 1];
  }

  /** Once every section has arrived there is exactly one arrival at which the table was reported. */
  lemma ReportedExactlyOnce(c: Collector, secs: seq<Section>, order: seq<nat>) returns (at: nat)
    requires Version(secs) && Within(order, |secs|) && StartsFresh(c, secs) && Collected(c, secs, order).Some?
    requires AllArrived(order, |secs|)
    ensures at < |order|
    ensures forall i | 0 <= i < |order| :: UpdatesAt(c, secs, order, i) <==> i == at
  {
    at := LastMissing(order, |secs|);
    forall i | 0 <= i < |order| ensures UpdatesAt(c, secs, order, i) <==> i == at {
      ReportedOnlyAt(c, secs, order, at, i);
    }
  }

  lemma ReportedOnlyAt(c: Collector, secs: seq<Section>, order: seq<nat>, at: nat, i: nat)
    requires Version(secs) && Within(order, |secs|) && StartsFresh(c, secs) && Collected(c, secs, order).Some?
    requires i < |order| && at < |order|
    requires !AllArrived(order[..at], |secs|) && AllArrived(order[..at + 1], |secs|)
    ensures UpdatesAt(c, secs, order, i) <==> i == at
  {
    hide Version, Within, AllArrived, StartsFresh, UpdatesAt, Collected;
    UpdatesAtTheLastMissing(c, secs, order, i);
    if i < at {
      MoreArrivals(order, |secs|, i + 1, at);
    } else if at < i {
      MoreArrivals(order, |secs|, at + 1, i);
    }
  }

  /** With different ids throughout the parser stays within every section, in any order. */
  lemma {:induction false} BroadcastIsCollected(c: Collector, secs: seq<Section>, order: seq<nat>)
    requires Broadcast(secs) && Within(order, |secs|) && StartsFresh(c, secs)
    ensures Version(secs)
    ensures Collected(c, secs, order) == Some(Run(c, secs, order))
    decreases |order|
  {
    if order != [] {
      var init, last := order[..|order| - 1], order[|order| - 1];
      Split(order, |secs|);
      BroadcastIsCollected(c, secs, init);
      hide Broadcast, Feed, IsNewsIsAddable, Reached;
      Step(c, secs, init, Run(c, secs, init), last);
    }
  }

  /** Two different sections of one version that list the same applications. */
  ghost predicate Twins(a: Section, b: Section) {
    && IsSection(a) && IsSection(b)
    && a.appType == b.appType == HBBTV_APPLICATION && a.version == b.version && a.number != b.number
    && |a.entries| + |b.entries| <= MAX_APPS
    && (forall id: uint16 :: HasEntry(a.entries, id) <==> HasEntry(b.entries, id))
  }

  /** The first of them to arrive decides: the other has no new application and is not read. */
  lemma FirstTwinWins(a: Section, b: Section)
    requires Twins(a, b)
    ensures CanAdd(None, a) && IsNews(None, a)
    ensures CanAdd(Some(AddSection(None, a)), b) && IsNews(Some(AddSection(None, a)), b)
    ensures AddSection(Some(AddSection(None, a)), b).apps == EntryApps(a.entries)
  {
    var t := AddSection(None, a);
    EmptyMaskIsEmpty();
    MarkAddsOne(EmptyMask(), a.number);
    EntryAppsHaveIds(a.entries);
    assert b.number !in Received(t.mask);
    forall i | 0 <= i < |b.entries| ensures Knows(t.apps, b.entries[i].appId) {
      assert HasEntry(b.entries, b.entries[i].appId);
    }
  }

  /** So what is stored for a repeated id does depend on the order of arrival, though the ids do not. */
  lemma ContentsDependOnOrderExactlyWhen(a: Section, b: Section)
    requires Twins(a, b)
    ensures CanAdd(None, a) && CanAdd(Some(AddSection(None, a)), b)
    ensures CanAdd(None, b) && CanAdd(Some(AddSection(None, b)), a)
    ensures AddSection(Some(AddSection(None, a)), b).apps == AddSection(Some(AddSection(None, b)), a).apps
       <==> EntryApps(a.entries) == EntryApps(b.entries)
  {
    hide CanAdd, IsSection, EntryApps;
    FirstTwinWins(a, b);
    FirstTwinWins(b, a);
  }

  /** One of two sections, with one application. */
  function Single(number: byte, e: Entry): Section {
    Section(0x74, 0, HBBTV_APPLICATION, 0, 0, number, 1, 0, [], 0, [e], [])
  }

  lemma PlainEntry(controlCode: byte) returns (e: Entry)
    ensures IsEntry(e) && EncodeAll(e.descriptors) == [] && e.appId == 1 && EntryApp(e).controlCode == controlCode
  {
    e := Entry(1, 1, controlCode, 0, []);
  }

  lemma OneEntry(e: Entry)
    requires IsEntry(e) && EncodeAll(e.descriptors) == []
    ensures AreEntries([e]) && |EncodeEntries([e])| == 9 && EntryApps([e]) == [EntryApp(e)]
  {
    hide IsEntry, EncodeAll, EntryApp;
    EntriesShape([e], []);
    assert [e][1..] == [];
  }

  lemma SingleIsSection(number: byte, e: Entry)
    requires IsEntry(e) && EncodeAll(e.descriptors) == []
    ensures IsSection(Single(number, e)) && EntryApps(Single(number, e).entries) == [EntryApp(e)]
  {
    OneEntry(e);
    hide IsEntry, EncodeAll, EntryApp, EncodeEntries, AreEntries, Length12;
    var s := Single(number, e);
    assert s.entries == [e] && s.crc == [];
  }

  /** There are such twins: one application, signalled with two control codes. */
  lemma DifferentTwins() returns (a: Section, b: Section)
    ensures Twins(a, b) && EntryApps(a.entries) != EntryApps(b.entries)
  {
    var e := PlainEntry(1);
    var f := PlainEntry(2);
    hide IsSection, EntryApps, IsEntry, EncodeAll, EntryApp;
    a, b := Single(0, e), Single(1, f);
    SingleIsSection(0, e);
    SingleIsSection(1, f);
    assert EntryApps(a.entries)[0].controlCode == 1 && EntryApps(b.entries)[0].controlCode == 2;
    assert a.entries == [e] && b.entries == [f] && [e][0].appId == [f][0].appId == 1;
  }

  /**
   * How a known application is read again when that works: behind a private descriptor of four bytes that end in the
   * length of what follows, the following descriptors are applied once more.
   */
  lemma DescriptorsAreAppliedAgain(e: Entry, app: App)
    requires IsEntry(e) && e.descriptors != [] && e.descriptors[0].UnknownDescriptor? && |e.descriptors[0].bytes| == 4
    requires AreSlots(app.transports) && AllWellFormed(e.descriptors[1..]) && NoOverrun(e.descriptors[1..], app)
    requires
      Read12(e.descriptors[0].bytes[2], e.descriptors[0].bytes[3]) == |EncodeAll(e.descriptors[1..])|
    ensures ReadsAgain(e, app, e.descriptors[1..])
  {
    var d, rest := e.descriptors[0], EncodeAll(e.descriptors[1..]);
    var bytes := EncodeAll(e.descriptors);
    assert bytes == Encode(d) + rest && Encode(d) == [d.tag, 4] + d.bytes;
    assert bytes[4] == d.bytes[2] && bytes[5] == d.bytes[3] && bytes[6..] == rest;
  }
}
