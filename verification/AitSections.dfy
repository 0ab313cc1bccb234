/**
 * Sections of the table and the object that collects them.
 *
 * `Section` is the syntax of section 5.3.4.6 of ETSI TS 102 809, `EncodeSection` its wire form and
 * `AddSection` what one more section means for the partial table.
 */
module AitSections {
  import opened Common
  import opened AitModel
  import opened AitDescriptors
  import opened AitLayout
  import opened AitPositions
  import opened AitSyntax
  import opened AitMask

  const HBBTV_APPLICATION: uint16 := 0x0010
  const MAX_APPS := 255

  datatype Entry = Entry(orgId: nat, appId: uint16, controlCode: byte, reserved: byte, descriptors: seq<Descriptor>)

  datatype Section = Section(
    tableId: byte, syntaxBits: byte,
    appType: uint16, versionBits: byte, version: byte, number: byte, last: byte,
    commonBits: byte, common: seq<byte>,
    loopBits: byte, entries: seq<Entry>,
    crc: seq<byte>)

  // ---------------------------------------------------------------- wire form

  predicate IsEntry(e: Entry) {
    e.orgId < 0x1_0000_0000 && e.reserved < 0x10 && AllWellFormed(e.descriptors)
    && |EncodeAll(e.descriptors)| < 0x1000
    && NoOverrun(e.descriptors, NewApp(e.orgId, e.appId, e.controlCode))
  }

  predicate AreEntries(es: seq<Entry>) {
    forall i | 0 <= i < |es| :: IsEntry(es[i])
  }

  /** A 12-bit length under four other bits. */
  function Length12(high: byte, n: nat): (bytes: seq<byte>)
    requires high < 0x10 && n < 0x1000
    ensures |bytes| == 2 && Read12(bytes[0], bytes[1]) == n
  {
    [high * 0x10 + n / 0x100, n % 0x100]
  }

  function Read12(hi: byte, lo: byte): (n: nat)
    ensures n < 0x1000
  {
    (hi as int % 0x10) * 0x100 + lo as int
  }

  function EncodeOrg(orgId: nat): (bytes: seq<byte>)
    requires orgId < 0x1_0000_0000
    ensures |bytes| == 4
  {
    Be16(orgId / 0x1_0000) + Be16(orgId % 0x1_0000)
  }

  function EncodeHead(e: Entry): (bytes: seq<byte>)
    requires IsEntry(e)
    ensures |bytes| == 9
  {
    EncodeOrg(e.orgId) + Be16(e.appId) + [e.controlCode] + Length12(e.reserved, |EncodeAll(e.descriptors)|)
  }

  function EncodeEntry(e: Entry): seq<byte>
    requires IsEntry(e)
  {
    EncodeHead(e) + EncodeAll(e.descriptors)
  }

  function EncodeEntries(es: seq<Entry>): seq<byte>
    requires AreEntries(es)
  {
    if es == [] then [] else EncodeEntry(es[0]) + EncodeEntries(es[1..])
  }

  /** The fields before the entries and their lengths fit their bits. */
  predicate FieldsFit(s: Section) {
    && s.syntaxBits < 0x10 && s.version < 0x20 && s.versionBits < 8
    && s.commonBits < 0x10 && |s.common| < 0x1000 && s.loopBits < 0x10
  }

  predicate IsSection(s: Section) {
    FieldsFit(s) && AreEntries(s.entries) && SectionLength(s, EncodeEntries(s.entries)) < 0x1000
  }

  function VersionByte(bits: byte, version: byte): byte
    requires bits < 8 && version < 0x20
  {
    bits / 2 * 0x40 + version * 2 + bits % 2
  }

  /** What follows the common descriptors; `es` are the bytes of the entries. */
  function SectionTail(s: Section, es: seq<byte>): (bytes: seq<byte>)
    requires FieldsFit(s) && |es| < 0x1000
    ensures |bytes| == 2 + |es| + |s.crc|
  {
    Length12(s.loopBits, |es|) + (es + s.crc)
  }

  /** The number of bytes after the section length. */
  function SectionLength(s: Section, es: seq<byte>): nat {
    9 + |s.common| + |es| + |s.crc|
  }

  /** The bytes before the common descriptors, from the values they hold. */
  function TenBytes(tableId: byte, syntaxBits: byte, length: nat, appType: uint16, version: byte,
                    number: byte, last: byte, commonBits: byte, common: nat): (bytes: seq<byte>)
    requires syntaxBits < 0x10 && commonBits < 0x10 && length < 0x1000 && common < 0x1000
    ensures |bytes| == 10
  {
    [tableId, syntaxBits * 0x10 + length / 0x100, length % 0x100, appType / 0x100, appType % 0x100, version,
     number, last, commonBits * 0x10 + common / 0x100, common % 0x100]
  }

  function FixedHead(s: Section, length: nat): (bytes: seq<byte>)
    requires FieldsFit(s) && length < 0x1000
    ensures |bytes| == 10
  {
    TenBytes(s.tableId, s.syntaxBits, length, s.appType, VersionByte(s.versionBits, s.version), s.number, s.last,
             s.commonBits, |s.common|)
  }

  function EncodeSection(s: Section): seq<byte>
    requires IsSection(s)
  {
    var es := EncodeEntries(s.entries);
    FixedHead(s, SectionLength(s, es)) + (s.common + SectionTail(s, es))
  }

  // ---------------------------------------------------------------- meaning

  function EntryApp(e: Entry): App
    requires IsEntry(e)
  {
    ApplyAll(e.descriptors, NewApp(e.orgId, e.appId, e.controlCode))
  }

  function EntryApps(es: seq<Entry>): (apps: seq<App>)
    requires AreEntries(es)
    ensures |apps| == |es|
    ensures forall i | 0 <= i < |es| :: apps[i] == EntryApp(es[i])
  {
    seq(|es|, i requires 0 <= i < |es| => EntryApp(es[i]))
  }

  predicate Knows(apps: seq<App>, appId: uint16) {
    exists i | 0 <= i < |apps| :: apps[i].appId == appId
  }

  predicate DistinctIds(es: seq<Entry>) {
    forall i, j | 0 <= i < j < |es| :: es[i].appId != es[j].appId
  }

  predicate AllKnown(apps: seq<App>, es: seq<Entry>) {
    forall i | 0 <= i < |es| :: Knows(apps, es[i].appId)
  }

  predicate NoneKnown(apps: seq<App>, es: seq<Entry>) {
    forall i | 0 <= i < |es| :: !Knows(apps, es[i].appId)
  }

  /** The partial table a section is added to: another version discards what has been collected. */
  function Base(partial: Option<Table>, s: Section): Option<Table> {
    if partial.Some? && partial.value.version == s.version then partial else None
  }

  predicate IsTable(t: Table) {
    |t.mask| == MASK_BYTES && |t.apps| <= MAX_APPS
  }

  /** The position of the first application with this id, or the number of applications. */
  function FirstWith(apps: seq<App>, appId: uint16): (i: nat)
    ensures i <= |apps|
    ensures i < |apps| ==> apps[i].appId == appId
    ensures forall k | 0 <= k < i :: apps[k].appId != appId
    ensures i < |apps| <==> Knows(apps, appId)
  {
    if apps == [] || apps[0].appId == appId then 0
    else
      var r := FirstWith(apps[1..], appId);
      assert forall k | 1 <= k < r + 1 :: apps[k] == apps[1..][k - 1];
      assert Knows(apps[1..], appId) <==> Knows(apps, appId) by { TailKnows(apps, appId); }
      1 + r
  }

  lemma TailKnows(apps: seq<App>, appId: uint16)
    requires apps != [] && apps[0].appId != appId
    ensures Knows(apps[1..], appId) <==> Knows(apps, appId)
  {
    assert forall k | 0 < k < |apps| :: apps[k] == apps[1..][k - 1];
  }

  /**
   * How far the second pass moves over an entry whose application is known already: it takes 7 bytes after the 6 of
   * the identifier, where a single control code byte follows, and reads a length there.
   */
  function KnownEntryStep(p: seq<byte>): nat
    requires |p| >= 15
  {
    15 + Read12(p[13], p[14])
  }

  /**
   * What the second pass takes for the descriptors of an entry whose application `app` is known already: it lands on
   * the next entry, and the bytes it passes over are descriptors.
   */
  ghost predicate ReadsAgain(e: Entry, app: App, ds: seq<Descriptor>)
    requires IsEntry(e)
  {
    var bytes := EncodeAll(e.descriptors);
    && |bytes| >= 6 && Read12(bytes[4], bytes[5]) == |bytes| - 6
    && AllWellFormed(ds) && EncodeAll(ds) == bytes[6..]
    && AreSlots(app.transports) && NoOverrun(ds, app)
  }

  ghost predicate CanReadAgain(e: Entry, app: App)
    requires IsEntry(e)
  {
    exists ds :: ReadsAgain(e, app, ds)
  }

  ghost function Again(e: Entry, app: App): (ds: seq<Descriptor>)
    requires IsEntry(e) && CanReadAgain(e, app)
    ensures ReadsAgain(e, app, ds)
  {
    var ds :| ReadsAgain(e, app, ds);
    ds
  }

  /** The second pass over one entry, where it stays within the loop. */
  ghost function ReadEntry(apps: seq<App>, e: Entry): Option<seq<App>>
    requires IsEntry(e)
  {
    var i := FirstWith(apps, e.appId);
    if i == |apps| then Some(apps + [EntryApp(e)])
    else if CanReadAgain(e, apps[i]) then Some(apps[i := ApplyAll(Again(e, apps[i]), apps[i])])
    else None
  }

  ghost function ReadEntries(apps: seq<App>, es: seq<Entry>): Option<seq<App>>
    requires AreEntries(es)
    decreases |es|
  {
    if es == [] then Some(apps)
    else
      var r := ReadEntry(apps, es[0]);
      if r.None? then None else ReadEntries(r.value, es[1..])
  }

  /**
   * The sections on which the application loop stays within its entries: in a table that is already under way, all
   * applications are known, or the second pass gets over the known ones.
   */
  ghost predicate CanAdd(partial: Option<Table>, s: Section) {
    IsSection(s) &&
    if Base(partial, s).None? then |s.entries| <= MAX_APPS else CanExtend(partial.value, s.entries)
  }

  ghost predicate CanExtend(t: Table, es: seq<Entry>)
    requires AreEntries(es)
  {
    IsTable(t) && |t.apps| + |es| <= MAX_APPS && (AllKnown(t.apps, es) || ReadEntries(t.apps, es).Some?)
  }

  /** Whether the section changes anything. */
  predicate IsNews(partial: Option<Table>, s: Section)
    requires partial.Some? ==> IsTable(partial.value)
  {
    s.appType == HBBTV_APPLICATION
    && (partial.None? || partial.value.version != s.version || !Marked(partial.value.mask, s.number))
  }

  ghost function MaskWith(partial: Option<Table>, s: Section): seq<bv8>
    requires CanAdd(partial, s)
  {
    Mark(if Base(partial, s).Some? then partial.value.mask else EmptyMask(), s.number)
  }

  ghost function AppsWith(partial: Option<Table>, s: Section): (apps: seq<App>)
    requires CanAdd(partial, s)
    ensures |apps| <= MAX_APPS
  {
    if Base(partial, s).None? then EntryApps(s.entries)
    else if AllKnown(partial.value.apps, s.entries) then partial.value.apps
    else
      ReadEntriesFit(partial.value.apps, s.entries);
      ReadEntries(partial.value.apps, s.entries).value
  }

  lemma {:induction false} ReadEntriesFit(apps: seq<App>, es: seq<Entry>)
    requires AreEntries(es) && ReadEntries(apps, es).Some?
    ensures |ReadEntries(apps, es).value| <= |apps| + |es|
    decreases |es|
  {
    if es != [] {
      ReadEntriesFit(ReadEntry(apps, es[0]).value, es[1..]);
    }
  }

  /** New and different applications are appended. */
  lemma {:induction false} NewEntriesAreAppended(apps: seq<App>, es: seq<Entry>)
    requires AreEntries(es) && NoneKnown(apps, es) && DistinctIds(es)
    ensures ReadEntries(apps, es) == Some(apps + EntryApps(es))
    decreases |es|
  {
    if es == [] {
      assert apps + [] == apps && EntryApps([]) == [];
    } else {
      assert !Knows(apps, es[0].appId);
      EntryIsPlain(es[0]);
      NextIsNew(apps, EntryApp(es[0]), es);
      OneMoreApp(es, apps);
      NewEntriesAreAppended(apps + [EntryApp(es[0])], es[1..]);
    }
  }

  ghost function AddSection(partial: Option<Table>, s: Section): (t: Table)
    requires CanAdd(partial, s)
    ensures IsTable(t)
  {
    Table(MaskWith(partial, s), s.version, AppsWith(partial, s),
          CompleteBy(Received(MaskWith(partial, s)), s.number, s.last))
  }

  // ---------------------------------------------------------------- the parser

  /** The inner search loop: the first entry with this application id, or the number of entries. */
  method IndexOf(apps: seq<App>, appId: uint16) returns (i: nat)
    ensures i == FirstWith(apps, appId)
  {
    i := 0;
    while i < |apps|
      invariant 0 <= i <= |apps|
      invariant forall k | 0 <= k < i :: apps[k].appId != appId
    {
      if apps[i].appId == appId {
        break;
      }
      i := i + 1;
    }
  }

  function ReadOrg(a: byte, b: byte, c: byte, d: byte): nat {
    a as int * 0x100_0000 + b as int * 0x1_0000 + c as int * 0x100 + d as int
  }

  lemma OrgBytes(orgId: nat)
    requires orgId < 0x1_0000_0000
    ensures var b := EncodeOrg(orgId); ReadOrg(b[0], b[1], b[2], b[3]) == orgId
  {
  }

  lemma HeadBytes(e: Entry)
    requires IsEntry(e)
    ensures
      var h := EncodeHead(e);
      && ReadOrg(h[0], h[1], h[2], h[3]) == e.orgId
      && Word(h[4], h[5]) == e.appId
      && h[6] == e.controlCode
      && Read12(h[7], h[8]) == |EncodeAll(e.descriptors)|
  {
    hide NoOverrun, EncodeAll, EncodeOrg, ReadOrg;
    OrgBytes(e.orgId);
  }

  lemma EntriesShape(es: seq<Entry>, tail: seq<byte>)
    requires AreEntries(es) && es != []
    ensures EncodeEntries(es) + tail ==
            EncodeHead(es[0]) + (EncodeAll(es[0].descriptors) + (EncodeEntries(es[1..]) + tail))
    ensures |EncodeEntries(es)| == 9 + |EncodeAll(es[0].descriptors)| + |EncodeEntries(es[1..])|
  {
    var head, body, rest := EncodeHead(es[0]), EncodeAll(es[0].descriptors), EncodeEntries(es[1..]);
    assert IsEntry(es[0]);
    Regroup(head + body, rest, tail);
    Regroup(head, body, rest + tail);
  }

  /** The nine bytes in front of the descriptors. */
  method ParseHead(p: seq<byte>, ghost e: Entry, ghost rest: seq<byte>)
    returns (orgId: nat, appId: uint16, controlCode: byte, descLen: nat)
    requires IsEntry(e) && p == EncodeHead(e) + rest
    ensures orgId == e.orgId && appId == e.appId && controlCode == e.controlCode
    ensures descLen == |EncodeAll(e.descriptors)|
  {
    hide ReadOrg, Read12, Word, IsEntry, EncodeHead;
    HeadBytes(e);
    Cut(p, EncodeHead(e), rest);
    orgId := ReadOrg(p[0], p[1], p[2], p[3]);
    appId := Word(p[4], p[5]);
    controlCode := p[6];
    descLen := Read12(p[7], p[8]);
  }

  /** How many entries are of applications not in `apps`. */
  function NewCount(apps: seq<App>, es: seq<Entry>): nat {
    if es == [] then 0 else (if Knows(apps, es[0].appId) then 0 else 1) + NewCount(apps, es[1..])
  }

  lemma {:induction false} NoneNewExactlyWhen(apps: seq<App>, es: seq<Entry>)
    ensures NewCount(apps, es) == 0 <==> AllKnown(apps, es)
  {
    if es != [] {
      NoneNewExactlyWhen(apps, es[1..]);
      assert forall i | 0 < i < |es| :: es[i] == es[1..][i - 1];
    }
  }

  predicate KnowsAllOf(apps: seq<App>, others: seq<App>) {
    forall i | 0 <= i < |others| :: Knows(apps, others[i].appId)
  }

  /** The array that is resized after the first pass is large enough for what the second one appends. */
  lemma {:induction false} NewCountIsEnough(known: seq<App>, apps: seq<App>, es: seq<Entry>)
    requires AreEntries(es) && ReadEntries(apps, es).Some? && KnowsAllOf(apps, known)
    ensures |ReadEntries(apps, es).value| <= |apps| + NewCount(known, es)
    decreases |es|
  {
    if es != [] {
      var e, next := es[0], ReadEntry(apps, es[0]).value;
      EntryIsPlain(e);
      IdsStay(apps, e);
      assert Knows(known, e.appId) ==> Knows(apps, e.appId) by {
        if Knows(known, e.appId) {
          var k :| 0 <= k < |known| && known[k].appId == e.appId;
          assert Knows(apps, known[k].appId);
        }
      }
      NewCountIsEnough(known, next, es[1..]);
    }
  }

  lemma ArrayIsLargeEnough(known: seq<App>, es: seq<Entry>)
    requires AreEntries(es)
    ensures ReadEntries(known, es).Some? ==> |ReadEntries(known, es).value| <= |known| + NewCount(known, es)
  {
    assert forall i | 0 <= i < |known| :: Knows(known, known[i].appId);
    if ReadEntries(known, es).Some? {
      NewCountIsEnough(known, known, es);
    }
  }

  /** Reading an entry loses no id and adds that of the entry. */
  lemma IdsStay(apps: seq<App>, e: Entry)
    requires IsEntry(e) && ReadEntry(apps, e).Some?
    ensures
      var r := ReadEntry(apps, e).value;
      && |apps| <= |r| && (forall k | 0 <= k < |apps| :: r[k].appId == apps[k].appId)
      && (if Knows(apps, e.appId) then |r| == |apps| else |r| == |apps| + 1 && r[|apps|].appId == e.appId)
      && forall id: uint16 :: Knows(r, id) <==> Knows(apps, id) || id == e.appId
  {
    EntryIsPlain(e);
    var i, r := FirstWith(apps, e.appId), ReadEntry(apps, e).value;
    if i < |apps| {
      IdsAreKept(Again(e, apps[i]), apps[i]);
    }
    assert forall k | 0 <= k < |apps| :: r[k].appId == apps[k].appId;
  }

  /** First pass over the application loop: how many applications are there and how many are new. */
  method CountApps(data: seq<byte>, size: nat, known: Option<seq<App>>, ghost es: seq<Entry>, ghost tail: seq<byte>)
    returns (numApps: nat, numNewApps: nat)
    requires AreEntries(es) && size == |EncodeEntries(es)| && data == EncodeEntries(es) + tail
    ensures numApps == |es|
    ensures numNewApps == if known.Some? then NewCount(known.value, es) else 0
  {
    numApps, numNewApps := 0, 0;
    var p := data;
    var left := size;
    ghost var rest := es;
    while 0 < left
      invariant AreEntries(rest) && numApps + |rest| == |es|
      invariant left == |EncodeEntries(rest)| && p == EncodeEntries(rest) + tail
      invariant known.Some? ==> numNewApps + NewCount(known.value, rest) == NewCount(known.value, es)
      invariant known.None? ==> numNewApps == 0
      decreases |rest|
    {
      hide IsEntry, Knows;
      ghost var e := rest[0];
      EntriesShape(rest, tail);
      var _, appId, _, descLen := ParseHead(p, e, EncodeAll(e.descriptors) + (EncodeEntries(rest[1..]) + tail));
      Cut(p, EncodeHead(e), EncodeAll(e.descriptors) + (EncodeEntries(rest[1..]) + tail));
      p := p[9..];
      Cut(p, EncodeAll(e.descriptors), EncodeEntries(rest[1..]) + tail);
      p := p[descLen..];
      left := left - 9 - descLen;
      if known.Some? {
        var i := IndexOf(known.value, appId);
        if i == |known.value| {
          numNewApps := numNewApps + 1;
        }
      }
      rest := rest[1..];
      numApps := numApps + 1;
    }
  }

  lemma KnownBytes(data: seq<byte>, e: Entry, tail: seq<byte>)
    requires IsEntry(e) && data == EncodeEntry(e) + tail && |EncodeAll(e.descriptors)| >= 6
    ensures
      var bytes := EncodeAll(e.descriptors);
      && |data| >= 15 && data[13] == bytes[4] && data[14] == bytes[5]
      && data[15..] == bytes[6..] + tail && |EncodeEntry(e)| == 9 + |bytes|
  {
    hide IsEntry, EncodeAll;
  }

  /** The entry of a known application, as the second pass gets over it. */
  method ReadKnown(data: seq<byte>, app: App, ghost e: Entry, ghost ds: seq<Descriptor>, ghost tail: seq<byte>)
    returns (r: App, step: nat)
    requires IsEntry(e) && data == EncodeEntry(e) + tail && ReadsAgain(e, app, ds)
    ensures r == ApplyAll(ds, app)
    ensures step == |EncodeEntry(e)|
  {
    hide IsEntry, NoOverrun, ApplyAll, AllWellFormed, EncodeAll, EncodeEntry, Read12;
    KnownBytes(data, e, tail);
    var descLen := Read12(data[13], data[14]);
    r := ParseApplication(data[15..], descLen, app, ds, tail);
    step := KnownEntryStep(data);
  }

  /** Both ways over an entry end where the next one begins. */
  lemma NextEntry(p: seq<byte>, es: seq<Entry>, tail: seq<byte>)
    requires AreEntries(es) && es != [] && p == EncodeEntries(es) + tail
    ensures
      var (e, after) := (es[0], EncodeEntries(es[1..]) + tail);
      && IsEntry(e) && AreEntries(es[1..])
      && p == EncodeEntry(e) + after && p == EncodeHead(e) + (EncodeAll(e.descriptors) + after)
      && |EncodeEntry(e)| == 9 + |EncodeAll(e.descriptors)|
      && |EncodeEntries(es)| == |EncodeEntry(e)| + |EncodeEntries(es[1..])|
      && p[9..] == EncodeAll(e.descriptors) + after && p[|EncodeEntry(e)|..] == after
  {
    hide IsEntry, EncodeAll;
    EntriesShape(es, tail);
    Regroup(EncodeEntry(es[0]), EncodeEntries(es[1..]), tail);
  }

  lemma NothingToRead(apps: seq<App>, tail: seq<byte>)
    ensures AreEntries([]) && EncodeEntries([]) == [] && EntryApps([]) == [] && ReadEntries(apps, []) == Some(apps)
  {
  }

  lemma NoneLeft(es: seq<Entry>)
    requires AreEntries(es) && |EncodeEntries(es)| == 0
    ensures es == []
  {
  }

  lemma ReadOne(apps: seq<App>, es: seq<Entry>)
    requires AreEntries(es) && es != [] && ReadEntries(apps, es).Some?
    ensures AreEntries(es[1..]) && IsEntry(es[0]) && ReadEntry(apps, es[0]).Some?
    ensures ReadEntries(apps, es) == ReadEntries(ReadEntry(apps, es[0]).value, es[1..])
  {
  }

  /** Second pass: reads the applications into the table. `first` says that no table was under way. */
  method ParseApps(data: seq<byte>, size: nat, before: seq<App>, first: bool,
                   ghost es: seq<Entry>, ghost tail: seq<byte>)
    returns (apps: seq<App>)
    requires AreEntries(es) && size == |EncodeEntries(es)| && data == EncodeEntries(es) + tail
    requires if first then before == [] else ReadEntries(before, es).Some?
    ensures if first then apps == EntryApps(es) else Some(apps) == ReadEntries(before, es)
  {
    hide IsEntry, NoOverrun, ApplyAll, Apply, AllWellFormed, CanReadAgain, EncodeEntry, EncodeHead, EncodeEntries,
      EncodeAll, ReadEntries, Knows;
    NothingToRead(before, tail);
    apps := before;
    var p := data;
    var left := size;
    var numApps := 0;
    ghost var rest := es;
    while 0 < left
      invariant AreEntries(rest) && numApps + |rest| == |es|
      invariant left == |EncodeEntries(rest)| && p == EncodeEntries(rest) + tail
      invariant first ==> |apps| == numApps && apps + EntryApps(rest) == EntryApps(es)
      invariant !first ==> ReadEntries(before, es).Some? && ReadEntries(apps, rest) == ReadEntries(before, es)
      decreases |rest|
    {
      ghost var e := rest[0];
      ghost var after := EncodeEntries(rest[1..]) + tail;
      NextEntry(p, rest, tail);
      EntryIsPlain(e);
      var orgId, appId, controlCode, descLen := ParseHead(p, e, EncodeAll(e.descriptors) + after);
      var i: nat := if first then numApps else |apps|;
      if !first {
        i := IndexOf(apps, appId);
        ReadOne(apps, rest);
      }
      if first || i == |apps| {
        var app := NewApp(orgId, appId, controlCode);
        app := ParseApplication(p[9..], descLen, app, e.descriptors, after);
        if first {
          OneMoreApp(rest, apps);
        }
        apps := apps + [app];
        p := p[9 + descLen..];
        left := left - 9 - descLen;
      } else {
        var app, step := ReadKnown(p, apps[i], e, Again(e, apps[i]), after);
        apps := apps[i := app];
        p := p[step..];
        left := left - step;
      }
      rest := rest[1..];
      numApps := numApps + 1;
    }
    NothingToRead(apps, tail);
    NoneLeft(rest);
  }

  lemma EntryIsPlain(e: Entry)
    requires IsEntry(e)
    ensures AllWellFormed(e.descriptors) && |EncodeAll(e.descriptors)| < 0x1000
    ensures NoOverrun(e.descriptors, NewApp(e.orgId, e.appId, e.controlCode))
    ensures EntryApp(e) == ApplyAll(e.descriptors, NewApp(e.orgId, e.appId, e.controlCode))
    ensures EntryApp(e).appId == e.appId && EntryApp(e).orgId == e.orgId && EntryApp(e).controlCode == e.controlCode
  {
    IdsAreKept(e.descriptors, NewApp(e.orgId, e.appId, e.controlCode));
  }

  lemma {:induction false} IdsAreKept(ds: seq<Descriptor>, app: App)
    requires AllWellFormed(ds)
    ensures var r := ApplyAll(ds, app); r.appId == app.appId && r.orgId == app.orgId && r.controlCode == app.controlCode
  {
    if ds != [] {
      IdsAreKept(ds[1..], Apply(ds[0], app));
    }
  }

  lemma OneMoreApp(es: seq<Entry>, apps: seq<App>)
    requires AreEntries(es) && es != []
    ensures AreEntries(es[1..]) && apps + EntryApps(es) == apps + [EntryApp(es[0])] + EntryApps(es[1..])
  {
    hide EntryApp, IsEntry, ApplyAll;
    var all, rest := EntryApps(es), EntryApps(es[1..]);
    forall i | 0 <= i < |rest| ensures rest[i] == all[i + 1] {
      assert es[1..][i] == es[i + 1];
    }
    assert all == [EntryApp(es[0])] + rest;
    Regroup(apps, [EntryApp(es[0])], rest);
  }

  lemma NextIsNew(apps: seq<App>, app: App, es: seq<Entry>)
    requires es != [] && NoneKnown(apps, es) && DistinctIds(es) && app.appId == es[0].appId
    ensures NoneKnown(apps + [app], es[1..]) && DistinctIds(es[1..])
  {
    forall i | 0 <= i < |es[1..]| ensures !Knows(apps + [app], es[1..][i].appId) {
      assert es[1..][i] == es[i + 1];
      assert !Knows(apps, es[i + 1].appId) && es[0].appId != es[i + 1].appId;
    }
  }

  lemma VersionBits(bits: byte, version: byte)
    requires bits < 8 && version < 0x20
    ensures VersionByte(bits, version) / 2 % 0x20 == version
  {
  }

  lemma LengthBits(high: byte, n: nat)
    requires high < 0x10 && n < 0x1000
    ensures Read12(high * 0x10 + n / 0x100, n % 0x100) == n
  {
  }

  lemma TenBytesFields(tableId: byte, syntaxBits: byte, length: nat, appType: uint16, version: byte,
                       number: byte, last: byte, commonBits: byte, common: nat)
    requires syntaxBits < 0x10 && commonBits < 0x10 && length < 0x1000 && common < 0x1000
    ensures
      var h := TenBytes(tableId, syntaxBits, length, appType, version, number, last, commonBits, common);
      && Read12(h[1], h[2]) == length && Word(h[3], h[4]) == appType
      && h[5] == version && h[6] == number && h[7] == last && Read12(h[8], h[9]) == common
  {
    LengthBits(syntaxBits, length);
    LengthBits(commonBits, common);
    hide Read12;
  }

  lemma FixedHeadFields(s: Section, length: nat)
    requires FieldsFit(s) && length < 0x1000
    ensures
      var h := FixedHead(s, length);
      && Read12(h[1], h[2]) == length
      && Word(h[3], h[4]) == s.appType
      && h[5] / 2 % 0x20 == s.version
      && h[6] == s.number && h[7] == s.last
      && Read12(h[8], h[9]) == |s.common|
  {
    hide Read12, VersionByte, TenBytes, Word;
    VersionBits(s.versionBits, s.version);
    TenBytesFields(s.tableId, s.syntaxBits, length, s.appType, VersionByte(s.versionBits, s.version), s.number, s.last,
                   s.commonBits, |s.common|);
  }

  /** What the first ten bytes of a printed section say. */
  lemma SectionHeader(s: Section)
    requires IsSection(s)
    ensures
      var (data, es) := (EncodeSection(s), EncodeEntries(s.entries));
      && |data| == 3 + SectionLength(s, es) && |data| >= 10
      && Read12(data[1], data[2]) == SectionLength(s, es)
      && Word(data[3], data[4]) == s.appType
      && data[5] / 2 % 0x20 == s.version
      && data[6] == s.number && data[7] == s.last
      && Read12(data[8], data[9]) == |s.common|
      && data[10..] == s.common + SectionTail(s, es)
  {
    hide SectionTail, AreEntries, EncodeEntries, FixedHead, Read12, Word;
    var es := EncodeEntries(s.entries);
    var length := SectionLength(s, es);
    FixedHeadFields(s, length);
    Cut(EncodeSection(s), FixedHead(s, length), s.common + SectionTail(s, es));
  }

  lemma EntryBytes(b: seq<byte>, head: seq<byte>, ds: seq<byte>, rest: seq<byte>)
    requires |head| == 9 && b == head + (ds + rest) && U12(head, 7) == |ds|
    ensures |b| == 9 + |ds| + |rest| && U12(b, 7) == |ds|
    ensures forall i | 0 <= i < 9 :: b[i] == head[i]
    ensures b[9..9 + |ds|] == ds && b[9 + |ds|..] == rest
  {
  }

  /** The entry that `b` begins with means what its bytes say. */
  lemma EntryPositions(e: Entry, b: seq<byte>, rest: seq<byte>)
    requires IsEntry(e) && b == EncodeEntry(e) + rest
    ensures |b| >= 9 && |b| >= 9 + U12(b, 7) && b[9 + U12(b, 7)..] == rest
    ensures EntryAt(b) == Some(EntryApp(e))
  {
    hide EncodeHead, EncodeAll, DescriptorsAt, EntryApp, ApplyAll, NoOverrun, AllWellFormed;
    var ds := EncodeAll(e.descriptors);
    HeadBytes(e);
    EntryIsPlain(e);
    DescriptorsPositions(e.descriptors, NewApp(e.orgId, e.appId, e.controlCode));
    Regroup(EncodeHead(e), ds, rest);
    EntryBytes(b, EncodeHead(e), ds, rest);
  }

  lemma {:induction false} EntriesPositions(es: seq<Entry>)
    requires AreEntries(es)
    ensures EntriesAt(EncodeEntries(es)) == Some(EntryApps(es))
  {
    hide IsEntry, EncodeEntry, EntryAt, EntryApp;
    if es != [] {
      var b, rest := EncodeEntries(es), EncodeEntries(es[1..]);
      assert IsEntry(es[0]) && b == EncodeEntry(es[0]) + rest;
      EntryPositions(es[0], b, rest);
      EntriesPositions(es[1..]);
      OneMoreApp(es, []);
      assert [] + EntryApps(es) == EntryApps(es);
      assert [] + [EntryApp(es[0])] + EntryApps(es[1..]) == [EntryApp(es[0])] + EntryApps(es[1..]);
    }
  }

  lemma SectionBytes(data: seq<byte>, common: seq<byte>, size: seq<byte>, es: seq<byte>, crc: seq<byte>)
    requires |data| >= 10 && data[10..] == common + (size + (es + crc)) && |size| == 2
    ensures
      var start := 10 + |common|;
      && |data| == start + 2 + |es| + |crc|
      && data[start] == size[0] && data[start + 1] == size[1]
      && data[start + 2..start + 2 + |es|] == es
  {
    var start := 10 + |common|;
    var d := data[start..];
    assert d == data[10..][|common|..] == size + (es + crc);
    assert data[start] == d[0] && data[start + 1] == d[1] && d[2..2 + |es|] == es;
    forall i | 0 <= i < |es| ensures data[start + 2 + i] == es[i] {
      assert data[start + 2 + i] == d[2 + i];
    }
  }

  /** A printed section says at its places what was printed. */
  lemma SectionPositions(s: Section)
    requires IsSection(s)
    ensures SectionAt(EncodeSection(s))
            == Some(Contents(s.appType, s.version, s.number, s.last, EntryApps(s.entries)))
  {
    hide EncodeSection, SectionLength, AreEntries, EncodeEntries, EntriesAt, EntryApps, Length12;
    var data, es := EncodeSection(s), EncodeEntries(s.entries);
    SectionHeader(s);
    EntriesPositions(s.entries);
    var size := Length12(s.loopBits, |es|);
    SectionBytes(data, s.common, size, es, s.crc);
    assert U12(data, 10 + |s.common|) == Read12(size[0], size[1]) == |es|;
  }

  /**
   * A section is news exactly when it lists HbbTV applications and has a version or a number that the table under way
   * does not have.
   */
  lemma NewsExactlyWhen(partial: Option<Table>, s: Section)
    requires partial.Some? ==> IsTable(partial.value)
    ensures IsNews(partial, s) <==>
            && s.appType == 16
            && (partial.Some? && partial.value.version == s.version ==> s.number !in Received(partial.value.mask))
  {
    if partial.Some? {
      assert s.number in Received(partial.value.mask) <==> Marked(partial.value.mask, s.number);
    }
  }

  /**
   * What the second pass makes of one entry, by its bytes: a new application is appended; for a known one, what stands
   * from byte 15 of the entry on is applied again to the first application with its id.
   */
  lemma ReadEntryPositions(apps: seq<App>, e: Entry)
    requires IsEntry(e) && ReadEntry(apps, e).Some?
    ensures
      var (r, b) := (ReadEntry(apps, e).value, EncodeEntry(e));
      if Knows(apps, e.appId) then
        exists i | 0 <= i < |apps| ::
          && apps[i].appId == e.appId && (forall k | 0 <= k < i :: apps[k].appId != e.appId)
          && |b| >= 15 && DescriptorsAt(b[15..], apps[i]).Some?
          && r == apps[i := DescriptorsAt(b[15..], apps[i]).value]
      else |b| >= 9 && |b| >= 9 + U12(b, 7) && EntryAt(b).Some? && r == apps + [EntryAt(b).value]
  {
    var b := EncodeEntry(e);
    assert b + [] == b;
    EntryPositions(e, b, []);
    var i := FirstWith(apps, e.appId);
    if i < |apps| {
      var ds := Again(e, apps[i]);
      assert b[15..] == EncodeAll(e.descriptors)[6..] == EncodeAll(ds);
      DescriptorsPositions(ds, apps[i]);
    }
  }

  /** The application loop: `known` are the applications collected so far, if a table is under way. */
  method ParseLoop(data: seq<byte>, known: Option<seq<App>>, ghost bits: byte,
                   ghost es: seq<Entry>, ghost tail: seq<byte>)
    returns (apps: seq<App>)
    requires bits < 0x10 && AreEntries(es) && |EncodeEntries(es)| < 0x1000
    requires data == Length12(bits, |EncodeEntries(es)|) + (EncodeEntries(es) + tail)
    requires known.Some? ==> AllKnown(known.value, es) || ReadEntries(known.value, es).Some?
    ensures apps == if known.None? then EntryApps(es)
                    else if AllKnown(known.value, es) then known.value
                    else ReadEntries(known.value, es).value
  {
    hide AreEntries, AllKnown, EncodeEntries, EntryApps, Read12, Length12, ReadEntries, NewCount;
    if known.Some? {
      NoneNewExactlyWhen(known.value, es);
    }
    Cut(data, Length12(bits, |EncodeEntries(es)|), EncodeEntries(es) + tail);
    var loopLen := Read12(data[0], data[1]);
    var p := data[2..];
    var numApps, numNewApps := CountApps(p, loopLen, known, es, tail);
    apps := if known.Some? then known.value else [];
    if known.None? {
      numNewApps := numApps;
    }
    assert |es| == 0 ==> EntryApps(es) == [];
    if numNewApps > 0 {
      if known.Some? {
        ArrayIsLargeEnough(known.value, es);
      }
      apps := ParseApps(p, loopLen, apps, known.None?, es, tail);
      assert |apps| <= (if known.Some? then |known.value| else 0) + numNewApps;
    }
  }

  method MarkCopy(bytes: seq<bv8>, number: byte, last: byte) returns (r: seq<bv8>, complete: bool)
    requires |bytes| == MASK_BYTES
    ensures r == Mark(bytes, number)
    ensures complete <==> CompleteBy(Received(r), number, last)
  {
    var mask := new bv8[MASK_BYTES];
    forall i | 0 <= i < MASK_BYTES {
      mask[i] := bytes[i];
    }
    assert mask[..] == bytes;
    complete := MarkSectionReceived(mask, number, last);
    r := mask[..];
  }

  /** The shared pointers of the source: `shared` says that the partial and the completed table are one object. */
  class Ait {
    var partial: Option<Table>
    var completed: Option<Table>
    var shared: bool

    constructor ()
      ensures partial == None && completed == None && !shared
    {
      partial, completed, shared := None, None, false;
    }

    ghost predicate Valid()
      reads this
    {
      && (partial.Some? ==> IsTable(partial.value))
      && (shared ==> partial == completed)
    }

    method Clear()
      modifies this
      ensures Valid() && partial == None && completed == None && !shared
    {
      partial, completed, shared := None, None, false;
    }

    /** An XML table replaces both tables by one shared object. */
    method ApplyAitTable(table: Table)
      requires IsTable(table)
      modifies this
      ensures Valid() && partial == Some(table) && completed == Some(table) && shared
    {
      partial, completed, shared := Some(table), Some(table), true;
    }

    /**
     * `AppSetTransportFailedToLoad` writes into the completed table, and so into the partial one while the
     * two are the same object.
     */
    method ReplaceCompleted(table: Table)
      requires Valid() && IsTable(table)
      modifies this
      ensures Valid() && completed == Some(table) && shared == old(shared)
      ensures partial == if old(shared) then Some(table) else old(partial)
    {
      completed := Some(table);
      if shared {
        partial := completed;
      }
    }

    /** Returns whether the partial table changed. */
    method ParseSection(data: seq<byte>, ghost s: Section) returns (changed: bool)
      requires Valid() && IsSection(s) && data == EncodeSection(s)
      requires IsNews(partial, s) ==> CanAdd(partial, s)
      modifies this
      ensures changed == old(IsNews(partial, s))
      ensures completed == old(completed)
      ensures partial == if changed then Some(old(AddSection(partial, s))) else old(partial)
      ensures shared == (old(shared) && !changed)
      ensures SectionAt(data).Some?
      ensures changed && old(Base(partial, s)).None? ==> partial.value.apps == SectionAt(data).value.apps
    {
      SectionPositions(s);
      hide Mark, CompleteBy, EncodeSection, SectionLength, AreEntries, EncodeEntries, AllKnown, ReadEntries, SectionAt;
      SectionHeader(s);
      changed := false;
      var appType := Word(data[3], data[4]);
      var version := data[5] / 2 % 0x20;
      var number := data[6];
      var last := data[7];
      if appType == HBBTV_APPLICATION {
        var received := false;
        if partial.Some? {
          received := SectionReceived(partial.value.mask, number);
        }
        if partial.None? || !received || partial.value.version != version {
          changed := true;
          var current := partial;
          if current.Some? && current.value.version != version {
            current := None;
          }
          var p := data[10..];
          Cut(p, s.common, SectionTail(s, EncodeEntries(s.entries)));
          p := p[Read12(data[8], data[9])..];
          var known := if current.Some? then Some(current.value.apps) else None;
          var bytes := if current.Some? then current.value.mask else EmptyMask();
          var mask, complete := MarkCopy(bytes, number, last);
          var apps := ParseLoop(p, known, s.loopBits, s.entries, s.crc);
          partial := Some(Table(mask, version, apps, complete));
          shared := false;
        }
      }
    }

    /** Returns whether the completed table changed. */
    method ProcessSection(data: seq<byte>, ghost s: Section) returns (updated: bool)
      requires Valid() && IsSection(s)
      requires |data| > 2 && |data| == Read12(data[1], data[2]) + 3 ==> data == EncodeSection(s)
      requires IsNews(partial, s) ==> CanAdd(partial, s)
      modifies this
      ensures Valid()
      ensures data != EncodeSection(s) ==>
                !updated && partial == old(partial) && completed == old(completed) && shared == old(shared)
      ensures data == EncodeSection(s) ==>
                && partial == old(PartialAfter(partial, s))
                && updated == old(Completes(partial, s))
      ensures completed == if updated then partial else old(completed)
    {
      updated := false;
      if data == EncodeSection(s) {
        SectionHeader(s);
      }
      if |data| > 2 {
        var aitSize := Read12(data[1], data[2]) + 3;
        if |data| != aitSize {
          return;
        }
      } else {
        return;
      }
      var changed := ParseSection(data, s);
      if changed {
        if partial.Some? && partial.value.complete {
          completed := partial;
          updated := true;
        }
      }
    }
  }

  /** The partial table after one more section. */
  ghost function PartialAfter(partial: Option<Table>, s: Section): (r: Option<Table>)
    requires IsNewsIsAddable(partial, s)
    ensures r.Some? ==> IsTable(r.value)
  {
    if IsNews(partial, s) then Some(AddSection(partial, s)) else partial
  }

  /** Whether one more section completes the table. */
  ghost predicate Completes(partial: Option<Table>, s: Section)
    requires IsNewsIsAddable(partial, s)
  {
    IsNews(partial, s) && AddSection(partial, s).complete
  }

  ghost predicate IsNewsIsAddable(partial: Option<Table>, s: Section) {
    (partial.Some? ==> IsTable(partial.value)) && (IsNews(partial, s) ==> CanAdd(partial, s))
  }
}
