/** The colour and property registry kept in the viewer's session state.
    Eleven standard entries and any number of added entries each carry a
    code list, a property label and a colour. The standard pass (run on
    every rerun) and the "Update Color Map" pass write them into the colour
    map, keyed by code, and the property map, keyed by slot number; both
    maps only ever grow. Deleting an added entry only records its index in
    a skip list, which hides its widgets. */
module Registry {
  import opened Tokens
  import opened OrderedMaps
  import opened Msa

  /** One row of the registry: codes, legend label and colour. */
  datatype Entry = Entry(code: string, prop: string, color: string)

  /** The standard entries, in the order of the entry identifiers
      (chiral hydrophobic, hydrophobic, chiral polar, polar,
      polar+hydrophobic, negative, positive, proline, hydroxyproline,
      sarcosine, default). */
  function InitialEntries(): (es: seq<Entry>)
    ensures |es| == 11
    ensures es[10] == Entry("default", "", "#FFFFFF")
  {
    [ Entry("601 602 621 622 623 624", "Chiral Hydrophobic", "#B95C00"),
      Entry("001 003 005 007 020 101 103 127 130 202 203 208 210 211", "Hydrophobic", "#FFAF22"),
      Entry("631 632 633 634", "Chiral Polar", "#0091B9"),
      Entry("303 307 ", "Polar", "#88CFFF"),
      Entry("129", "Polar+Hydrophobic", "#C06EF7"),
      Entry("314", "Negative", "#F95B5E"),
      Entry("332 333", "Positive", "#5B75F9"),
      Entry("PRO", "Proline", "#B8B8B8"),
      Entry("HYP", "Hydroxyproline", "#ABC5C5"),
      Entry("SAR", "Sarcosine", "#F9ECB3"),
      Entry("default", "", "#FFFFFF") ]
  }

  /** An added entry starts blank and white. */
  const BlankEntry: Entry := Entry("", "", "#ffffff")

  /* ---------- the passes, as functions of the old maps ---------- */

  /** Every code of `codes`, in order, mapped to `color`. */
  function Paint(cmap: map<string, string>, codes: seq<string>, color: string): map<string, string>
    decreases |codes|
  {
    if codes == [] then cmap
    else Paint(cmap, codes[..|codes| - 1], color)[codes[|codes| - 1] := color]
  }

  /** The colour map after the standard entries have been painted in order. */
  function StandardColors(cmap: map<string, string>, entries: seq<Entry>): map<string, string>
    decreases |entries|
  {
    if entries == [] then cmap
    else
      var e := entries[|entries| - 1];
      Paint(StandardColors(cmap, entries[..|entries| - 1]), Split(e.code), e.color)
  }

  /** Slot `idx` after entry `e` wrote `[code, prop]` for each of its codes:
      the last code is what remains, and no code leaves the slot alone. */
  function FillSlot(pm: OrderedMap<nat, Slot>, idx: nat, e: Entry): (r: OrderedMap<nat, Slot>)
    ensures pm.Valid() ==> r.Valid()
  {
    var codes := Split(e.code);
    if codes == [] then pm else pm.Put(idx, Slot(codes[|codes| - 1], e.prop))
  }

  /** The property map after the standard pass: entry number `idx` fills slot `idx`. */
  function StandardSlots(pm: OrderedMap<nat, Slot>, entries: seq<Entry>): (r: OrderedMap<nat, Slot>)
    ensures pm.Valid() ==> r.Valid()
    decreases |entries|
  {
    if entries == [] then pm
    else
      var n := |entries| - 1;
      FillSlot(StandardSlots(pm, entries[..n]), n, entries[n])
  }

  /** The colour map after the added entries, each keyed by its whole code string. */
  function AddedColors(cmap: map<string, string>, added: seq<Entry>): map<string, string>
    decreases |added|
  {
    if added == [] then cmap
    else
      var e := added[|added| - 1];
      AddedColors(cmap, added[..|added| - 1])[e.code := e.color]
  }

  /** The property map after the added entries: added entry `i` fills slot `i`. */
  function AddedSlots(pm: OrderedMap<nat, Slot>, added: seq<Entry>): (r: OrderedMap<nat, Slot>)
    ensures pm.Valid() ==> r.Valid()
    decreases |added|
  {
    if added == [] then pm
    else
      var n := |added| - 1;
      AddedSlots(pm, added[..n]).Put(n, Slot(added[n].code, added[n].prop))
  }

  /** The indices below `n` that are not in the skip list, in order. */
  function Visible(n: nat, skip: seq<nat>): seq<nat>
    decreases n
  {
    if n == 0 then [] else Visible(n - 1, skip) + (if n - 1 in skip then [] else [n - 1])
  }

  /** A skip list of deleted rows among `n` added entries: each index once,
      each one an existing entry. */
  predicate SkipList(skip: seq<nat>, n: nat) {
    && (forall a, b :: 0 <= a < b < |skip| ==> skip[a] != skip[b])
    && (forall t :: 0 <= t < |skip| ==> skip[t] < n)
  }

  /* ---------- the registry ---------- */

  class ColorRegistry {
    var standard: seq<Entry>
    var cmap: map<string, string>
    var propmap: OrderedMap<nat, Slot>
    var added: seq<Entry>
    var skip: seq<nat>

    ghost predicate Valid()
      reads this
    {
      && |standard| == 11
      && propmap.Valid()
      && SkipList(skip, |added|)
    }

    /** The session state on the first run: standard entries, empty maps
        and lists. */
    constructor ()
      ensures Valid()
      ensures standard == InitialEntries() && cmap == map[] && propmap == Empty()
      ensures added == [] && skip == []
    {
      standard := InitialEntries();
      cmap := map[];
      propmap := Empty();
      added := [];
      skip := [];
    }

    /** The widgets of standard row `k` write its code list, label and colour. */
    method EditStandard(k: nat, e: Entry)
      requires Valid() && k < |standard|
      modifies this
      ensures Valid()
      ensures standard == old(standard)[k := e]
      ensures cmap == old(cmap) && propmap == old(propmap) && added == old(added) && skip == old(skip)
    {
      standard := standard[k := e];
    }

    /** One standard entry: each of its codes gets its colour, and each
        rewrites slot `idx`. */
    method PaintEntry(idx: nat, e: Entry)
      requires Valid()
      modifies this
      ensures Valid()
      ensures cmap == Paint(old(cmap), Split(e.code), e.color)
      ensures propmap == FillSlot(old(propmap), idx, e)
      ensures standard == old(standard) && added == old(added) && skip == old(skip)
    {
      var codes := Split(e.code);
      ghost var pm0 := propmap;
      for i := 0 to |codes|
        invariant cmap == Paint(old(cmap), codes[..i], e.color)
        invariant i == 0 ==> propmap == pm0
        invariant i > 0 ==> propmap == pm0.Put(idx, Slot(codes[i - 1], e.prop))
        invariant standard == old(standard) && added == old(added) && skip == old(skip)
        invariant Valid()
      {
        assert codes[..i + 1][..i] == codes[..i];
        cmap := cmap[codes[i] := e.color];
        if i > 0 {
          PutPut(pm0, idx, Slot(codes[i - 1], e.prop), Slot(codes[i], e.prop));
        }
        propmap := propmap.Put(idx, Slot(codes[i], e.prop));
      }
      assert codes[..|codes|] == codes;
    }

    /** The standard pass, run on every rerun. */
    method StandardPass()
      requires Valid()
      modifies this
      ensures Valid()
      ensures cmap == StandardColors(old(cmap), standard)
      ensures propmap == StandardSlots(old(propmap), standard)
      ensures standard == old(standard) && added == old(added) && skip == old(skip)
    {
      for idx := 0 to |standard|
        invariant Valid()
        invariant standard == old(standard) && added == old(added) && skip == old(skip)
        invariant cmap == StandardColors(old(cmap), standard[..idx])
        invariant propmap == StandardSlots(old(propmap), standard[..idx])
      {
        assert standard[..idx + 1][..idx] == standard[..idx];
        PaintEntry(idx, standard[idx]);
      }
      assert standard[..|standard|] == standard;
    }

    /** The added entries, every one of them, skipped ones included, under
        its whole code string and its index. */
    method ApplyAdded()
      requires Valid()
      modifies this
      ensures Valid()
      ensures cmap == AddedColors(old(cmap), added)
      ensures propmap == AddedSlots(old(propmap), added)
      ensures standard == old(standard) && added == old(added) && skip == old(skip)
    {
      var colors, slots := cmap, propmap;
      for i := 0 to |added|
        invariant colors == AddedColors(cmap, added[..i])
        invariant slots == AddedSlots(propmap, added[..i])
      {
        assert added[..i + 1][..i] == added[..i];
        var row := added[i];
        colors := colors[row.code := row.color];
        slots := slots.Put(i, Slot(row.code, row.prop));
      }
      assert added[..|added|] == added;
      cmap, propmap := colors, slots;
    }

    /** "Update Color Map": the standard pass, then the added entries. */
    method UpdateColorMap()
      requires Valid()
      modifies this
      ensures Valid()
      ensures cmap == AddedColors(StandardColors(old(cmap), standard), added)
      ensures propmap == AddedSlots(StandardSlots(old(propmap), standard), added)
      ensures standard == old(standard) && added == old(added) && skip == old(skip)
    {
      StandardPass();
      ApplyAdded();
    }

    /** "+ Add Entry". */
    method AddEntry()
      requires Valid()
      modifies this
      ensures Valid()
      ensures added == old(added) + [BlankEntry]
      ensures standard == old(standard) && cmap == old(cmap) && propmap == old(propmap) && skip == old(skip)
    {
      added := added + [BlankEntry];
    }

    /** The delete button of a shown row: the index joins the skip list and
        the entry itself stays. */
    method DeleteEntry(idx: nat)
      requires Valid() && idx < |added| && idx !in skip
      modifies this
      ensures Valid()
      ensures skip == old(skip) + [idx]
      ensures standard == old(standard) && cmap == old(cmap) && propmap == old(propmap) && added == old(added)
    {
      skip := skip + [idx];
    }

    /** The widgets of a shown added row write its code string, label and colour. */
    method EditAdded(idx: nat, e: Entry)
      requires Valid() && idx < |added| && idx !in skip
      modifies this
      ensures Valid()
      ensures added == old(added)[idx := e]
      ensures standard == old(standard) && cmap == old(cmap) && propmap == old(propmap) && skip == old(skip)
    {
      added := added[idx := e];
    }

    /** The rows drawn for the added entries: widget row `t` shows the entry
        at index `rows[t]`; there are `|added| - |skip|` widget rows, enough
        for every entry that is not skipped. */
    method VisibleRows() returns (rows: seq<nat>)
      requires Valid()
      ensures rows == Visible(|added|, skip)
      ensures |rows| == |added| - |skip|
    {
      VisibleCount(|added|, skip);
      var widgetRows := |added| - |skip|;
      rows := [];
      var position := 0;
      for idx := 0 to |added|
        invariant rows == Visible(idx, skip) && position == |rows|
      {
        if idx !in skip {
          VisibleGrows(idx + 1, |added|, skip);
          assert position < widgetRows;
          rows := rows + [idx];
          position := position + 1;
        }
      }
    }
  }

  /* ---------- properties ---------- */

  /** Painting maps every listed code to the colour and leaves every other
      key as it was; no key is removed. */
  lemma {:induction false} PaintAt(cmap: map<string, string>, codes: seq<string>, color: string, k: string)
    ensures k in Paint(cmap, codes, color) <==> k in cmap || k in codes
    ensures k in codes ==> Paint(cmap, codes, color)[k] == color
    ensures k !in codes && k in cmap ==> Paint(cmap, codes, color)[k] == cmap[k]
    decreases |codes|
  {
    if codes != [] {
      var n := |codes| - 1;
      PaintAt(cmap, codes[..n], color, k);
      assert codes == codes[..n] + [codes[n]];
    }
  }

  /** Last writer wins: a code takes the colour of the last standard entry
      that lists it. */
  lemma {:induction false} StandardColorsLastWriter(cmap: map<string, string>, entries: seq<Entry>, k: string, t: nat)
    requires t < |entries| && k in Split(entries[t].code)
    requires forall u :: t < u < |entries| ==> k !in Split(entries[u].code)
    ensures k in StandardColors(cmap, entries)
    ensures StandardColors(cmap, entries)[k] == entries[t].color
    decreases |entries|
  {
    var n := |entries| - 1;
    var init := entries[..n];
    var e := entries[n];
    PaintAt(StandardColors(cmap, init), Split(e.code), e.color, k);
    if t < n {
      assert forall u :: t < u < n ==> init[u] == entries[u];
      StandardColorsLastWriter(cmap, init, k, t);
    }
  }

  /** A code no standard entry lists keeps its colour, or stays absent. */
  lemma {:induction false} StandardColorsUntouched(cmap: map<string, string>, entries: seq<Entry>, k: string)
    requires forall u :: 0 <= u < |entries| ==> k !in Split(entries[u].code)
    ensures k in StandardColors(cmap, entries) <==> k in cmap
    ensures k in cmap ==> StandardColors(cmap, entries)[k] == cmap[k]
    decreases |entries|
  {
    if entries != [] {
      var n := |entries| - 1;
      var init := entries[..n];
      var e := entries[n];
      PaintAt(StandardColors(cmap, init), Split(e.code), e.color, k);
      assert forall u :: 0 <= u < n ==> init[u] == entries[u];
      StandardColorsUntouched(cmap, init, k);
    }
  }

  /** The standard pass never removes a colour-map key. */
  lemma {:induction false} StandardColorsGrow(cmap: map<string, string>, entries: seq<Entry>)
    ensures cmap.Keys <= StandardColors(cmap, entries).Keys
    decreases |entries|
  {
    if entries != [] {
      var n := |entries| - 1;
      var e := entries[n];
      var before := StandardColors(cmap, entries[..n]);
      StandardColorsGrow(cmap, entries[..n]);
      forall k | k in before ensures k in StandardColors(cmap, entries) {
        PaintAt(before, Split(e.code), e.color, k);
      }
    }
  }

  /** After the standard pass slot `idx` of an entry with codes holds its
      last code and its label; the slot of an entry without codes, and any
      slot past the standard entries, keeps what it held. */
  lemma {:induction false} StandardSlotsAt(pm: OrderedMap<nat, Slot>, entries: seq<Entry>, idx: nat)
    ensures var r := StandardSlots(pm, entries);
      && (idx < |entries| && Split(entries[idx].code) != [] ==>
            var codes := Split(entries[idx].code);
            idx in r.vals && r.vals[idx] == Slot(codes[|codes| - 1], entries[idx].prop))
      && (idx >= |entries| || Split(entries[idx].code) == [] ==>
            (idx in r.vals <==> idx in pm.vals) && (idx in pm.vals ==> r.vals[idx] == pm.vals[idx]))
    decreases |entries|
  {
    if entries != [] {
      var n := |entries| - 1;
      var init := entries[..n];
      assert StandardSlots(pm, entries) == FillSlot(StandardSlots(pm, init), n, entries[n]);
      StandardSlotsAt(pm, init, idx);
      if idx < n {
        assert init[idx] == entries[idx];
      }
    }
  }

  /** The standard pass keeps every slot, in its old order. */
  lemma {:induction false} StandardSlotsGrow(pm: OrderedMap<nat, Slot>, entries: seq<Entry>)
    ensures pm.keys <= StandardSlots(pm, entries).keys
    decreases |entries|
  {
    if entries != [] {
      StandardSlotsGrow(pm, entries[..|entries| - 1]);
    }
  }

  /** Added entries are keyed by their whole code string: the last added
      entry with a given code string decides its colour. */
  lemma {:induction false} AddedColorsLastWriter(cmap: map<string, string>, added: seq<Entry>, t: nat)
    requires t < |added|
    requires forall u :: t < u < |added| ==> added[u].code != added[t].code
    ensures added[t].code in AddedColors(cmap, added)
    ensures AddedColors(cmap, added)[added[t].code] == added[t].color
    decreases |added|
  {
    var n := |added| - 1;
    var init := added[..n];
    if t < n {
      assert forall u :: t < u < n ==> init[u] == added[u];
      AddedColorsLastWriter(cmap, init, t);
    }
  }

  /** A key no added entry carries keeps its colour, or stays absent. */
  lemma {:induction false} AddedColorsUntouched(cmap: map<string, string>, added: seq<Entry>, k: string)
    requires forall u :: 0 <= u < |added| ==> added[u].code != k
    ensures k in AddedColors(cmap, added) <==> k in cmap
    ensures k in cmap ==> AddedColors(cmap, added)[k] == cmap[k]
    decreases |added|
  {
    if added != [] {
      var n := |added| - 1;
      assert forall u :: 0 <= u < n ==> added[..n][u] == added[u];
      AddedColorsUntouched(cmap, added[..n], k);
    }
  }

  /** The added entries never remove a colour-map key. */
  lemma {:induction false} AddedColorsGrow(cmap: map<string, string>, added: seq<Entry>)
    ensures cmap.Keys <= AddedColors(cmap, added).Keys
    decreases |added|
  {
    if added != [] {
      AddedColorsGrow(cmap, added[..|added| - 1]);
    }
  }

  /** Added entry `i` overwrites slot `i` with its unsplit code string and
      its label, whatever the standard pass left there; slots past the
      added entries keep what they held, and so does their order. */
  lemma {:induction false} AddedSlotsAt(pm: OrderedMap<nat, Slot>, added: seq<Entry>, i: nat)
    ensures var r := AddedSlots(pm, added);
      && pm.keys <= r.keys
      && (i < |added| ==> i in r.vals && r.vals[i] == Slot(added[i].code, added[i].prop))
      && (i >= |added| ==> (i in r.vals <==> i in pm.vals) && (i in pm.vals ==> r.vals[i] == pm.vals[i]))
    decreases |added|
  {
    if added != [] {
      var n := |added| - 1;
      var init := added[..n];
      assert AddedSlots(pm, added) == AddedSlots(pm, init).Put(n, Slot(added[n].code, added[n].prop));
      AddedSlotsAt(pm, init, i);
      if i < n {
        assert init[i] == added[i];
      }
    }
  }

  /** Neither pass ever clears anything: every colour-map key and every
      property-map slot survives, slots in their old order. */
  lemma NeverCleared(cmap: map<string, string>, pm: OrderedMap<nat, Slot>, standard: seq<Entry>, added: seq<Entry>)
    ensures cmap.Keys <= StandardColors(cmap, standard).Keys
    ensures cmap.Keys <= AddedColors(StandardColors(cmap, standard), added).Keys
    ensures pm.keys <= StandardSlots(pm, standard).keys
    ensures pm.keys <= AddedSlots(StandardSlots(pm, standard), added).keys
  {
    StandardColorsGrow(cmap, standard);
    AddedColorsGrow(StandardColors(cmap, standard), added);
    StandardSlotsGrow(pm, standard);
    AddedSlotsAt(StandardSlots(pm, standard), added, 0);
  }

  /** The first standard pass puts the fallback colour white under
      `default`; that no later pass takes the key away, so that the plot's
      `color_map['default']` stays defined, is `NeverCleared`. */
  lemma FirstPassDefault()
    ensures "default" in StandardColors(map[], InitialEntries())
    ensures StandardColors(map[], InitialEntries())["default"] == "#FFFFFF"
  {
    assert IsToken("default");
    SplitJoin(["default"]);
    StandardColorsLastWriter(map[], InitialEntries(), "default", 10);
  }

  /** The standard pass of the rerun after "Update Color Map" puts back
      what the added entries wrote over a standard entry with codes: its
      slot ends as the standard pass alone leaves it, so an added entry
      with that index never reaches a later plot's legend. */
  lemma StandardPassRestoresSlot(pm: OrderedMap<nat, Slot>, standard: seq<Entry>, added: seq<Entry>, idx: nat)
    requires idx < |standard| && Split(standard[idx].code) != []
    ensures var once := StandardSlots(pm, standard);
      var again := StandardSlots(AddedSlots(once, added), standard);
      idx in once.vals && idx in again.vals && again.vals[idx] == once.vals[idx]
  {
    StandardSlotsAt(pm, standard, idx);
    StandardSlotsAt(AddedSlots(StandardSlots(pm, standard), added), standard, idx);
  }

  /** The other side: at the index of a standard entry whose code list is
      empty, or past the standard entries, the slot an added entry wrote
      survives the standard pass of the next rerun (and, by
      `StandardSlotsAt`, any later one while that entry's code list stays
      empty); its label then reaches the legend unless it is `—`. */
  lemma AddedSlotSurvives(pm: OrderedMap<nat, Slot>, standard: seq<Entry>, added: seq<Entry>, idx: nat)
    requires idx < |added|
    requires idx >= |standard| || Split(standard[idx].code) == []
    ensures var again := StandardSlots(AddedSlots(StandardSlots(pm, standard), added), standard);
      idx in again.vals && again.vals[idx] == Slot(added[idx].code, added[idx].prop)
  {
    AddedSlotsAt(StandardSlots(pm, standard), added, idx);
    StandardSlotsAt(AddedSlots(StandardSlots(pm, standard), added), standard, idx);
  }

  /** Likewise for colours: a code some standard entry lists gets that
      entry's colour back, whatever colour an added entry gave it. */
  lemma StandardPassRestoresColor(cmap: map<string, string>, standard: seq<Entry>, added: seq<Entry>, k: string, t: nat)
    requires t < |standard| && k in Split(standard[t].code)
    requires forall u :: t < u < |standard| ==> k !in Split(standard[u].code)
    ensures var once := StandardColors(cmap, standard);
      var again := StandardColors(AddedColors(once, added), standard);
      k in once && k in again && again[k] == once[k] == standard[t].color
  {
    StandardColorsLastWriter(cmap, standard, k, t);
    StandardColorsLastWriter(AddedColors(StandardColors(cmap, standard), added), standard, k, t);
  }

  /** The `polar` entry, written with a trailing space, colours exactly
      two codes and leaves code 307 in its slot. */
  lemma PolarEntry(cmap: map<string, string>, pm: OrderedMap<nat, Slot>)
    ensures var e := InitialEntries()[3];
      && Paint(cmap, Split(e.code), e.color) == cmap["303" := "#88CFFF"]["307" := "#88CFFF"]
      && FillSlot(pm, 3, e) == pm.Put(3, Slot("307", "Polar"))
  {
    var e := InitialEntries()[3];
    assert e == Entry("303 307 ", "Polar", "#88CFFF");
    TrailingSpaceExample();
    var codes := ["303", "307"];
    assert codes[..1] == ["303"] && codes[..1][..0] == [];
    assert Paint(cmap, codes, e.color) == Paint(cmap, codes[..1], e.color)["307" := e.color];
  }

  lemma {:induction false} VisibleMembers(n: nat, skip: seq<nat>, t: int)
    ensures t in Visible(n, skip) <==> 0 <= t < n && t !in skip
    decreases n
  {
    if n > 0 {
      VisibleMembers(n - 1, skip, t);
    }
  }

  /** The shown rows are exactly the entries not skipped, in index order. */
  lemma {:induction false} VisibleSpec(n: nat, skip: seq<nat>)
    ensures forall t: int :: t in Visible(n, skip) <==> 0 <= t < n && t !in skip
    ensures forall a, b :: 0 <= a < b < |Visible(n, skip)| ==> Visible(n, skip)[a] < Visible(n, skip)[b]
    decreases n
  {
    forall t: int ensures t in Visible(n, skip) <==> 0 <= t < n && t !in skip {
      VisibleMembers(n, skip, t);
    }
    if n > 0 {
      var before := Visible(n - 1, skip);
      VisibleSpec(n - 1, skip);
      forall a | 0 <= a < |before| ensures before[a] < n - 1 {
        assert before[a] in before;
      }
    }
  }

  /** The skipped indices below `n`. */
  ghost function SkippedBelow(skip: seq<nat>, n: nat): set<nat> {
    set x | x in skip && x < n
  }

  lemma {:induction false} VisibleCountBelow(n: nat, skip: seq<nat>)
    ensures |Visible(n, skip)| + |SkippedBelow(skip, n)| == n
    decreases n
  {
    if n > 0 {
      VisibleCountBelow(n - 1, skip);
      if n - 1 in skip {
        assert SkippedBelow(skip, n) == SkippedBelow(skip, n - 1) + {n - 1};
      } else {
        assert SkippedBelow(skip, n) == SkippedBelow(skip, n - 1);
      }
    }
  }

  ghost function Elements(s: seq<nat>): set<nat> {
    set x | x in s
  }

  lemma {:induction false} DistinctCard(s: seq<nat>)
    requires forall a, b :: 0 <= a < b < |s| ==> s[a] != s[b]
    ensures |Elements(s)| == |s|
    decreases |s|
  {
    if s != [] {
      var n := |s| - 1;
      var init := s[..n];
      assert forall a :: 0 <= a < n ==> init[a] == s[a];
      DistinctCard(init);
      assert s[n] !in Elements(init) by {
        forall a | 0 <= a < n ensures init[a] != s[n] {
          assert init[a] == s[a];
        }
      }
      assert s == init + [s[n]];
      assert Elements(s) == Elements(init) + {s[n]};
    }
  }

  /** There are as many shown rows as entries minus deletions. */
  lemma VisibleCount(n: nat, skip: seq<nat>)
    requires SkipList(skip, n)
    ensures |Visible(n, skip)| == n - |skip|
  {
    VisibleCountBelow(n, skip);
    DistinctCard(skip);
    assert SkippedBelow(skip, n) == Elements(skip);
  }

  /** Shown rows only accumulate as the index grows. */
  lemma {:induction false} VisibleGrows(m: nat, n: nat, skip: seq<nat>)
    requires m <= n
    ensures Visible(m, skip) <= Visible(n, skip)
    decreases n - m
  {
    if m < n {
      VisibleGrows(m, n - 1, skip);
    }
  }

  /** Adding an entry shows it as the last row, after the rows shown before. */
  lemma AddShows(n: nat, skip: seq<nat>)
    requires SkipList(skip, n)
    ensures Visible(n + 1, skip) == Visible(n, skip) + [n]
  {
  }

  /** Deleting a shown row hides exactly that row and no other; the count
      of shown rows drops by one. */
  lemma DeleteHides(n: nat, skip: seq<nat>, idx: nat)
    requires SkipList(skip, n) && idx < n && idx !in skip
    ensures SkipList(skip + [idx], n)
    ensures forall t: int :: t in Visible(n, skip + [idx]) <==> t in Visible(n, skip) && t != idx
    ensures |Visible(n, skip + [idx])| == |Visible(n, skip)| - 1
  {
    VisibleSpec(n, skip);
    VisibleSpec(n, skip + [idx]);
    VisibleCount(n, skip);
    VisibleCount(n, skip + [idx]);
  }
}
