/** The layout computed by `plot_msa_plotly`, with the figure kept as an
    abstract list of traces instead of plotly objects: each sequence is
    split into codes, each code becomes a coloured unit square and a text
    label, the property map gives a legend with one marker per property
    label, and the figure and export sizes follow fixed formulas. */
module Msa {
  import opened Tokens
  import opened OrderedMaps

  /** A property-map value, the pair `[code, property label]`. */
  datatype Slot = Slot(code: string, prop: string)

  datatype Trace =
    /** a filled polygon through the points (xs[t], ys[t]) */
    | Cell(xs: seq<int>, ys: seq<int>, fill: string)
    /** a text trace at (x, y) */
    | Label(x: real, y: real, text: string)
    /** a legend entry: a marker of colour `color` named `name` */
    | Marker(color: string, name: string)

  datatype Figure = Figure(
    traces: seq<Trace>,
    xTickVals: seq<real>, xTickText: seq<string>,
    yTickVals: seq<real>, yTickText: seq<string>,
    width: real, height: real)

  /** The figure with the export size `(w, h)`, or the `KeyError` raised
      when `color_map['default']` is evaluated and is missing. */
  datatype PlotResult = Plotted(fig: Figure, w: int, h: int) | MissingDefault

  /** The property label that gets no legend marker. */
  const Placeholder: string := "—"

  /** The codes of every sequence, one row per sequence. */
  function Grid(seqs: seq<string>): seq<seq<string>> {
    seq(|seqs|, i requires 0 <= i < |seqs| => Split(seqs[i]))
  }

  /** A non-empty grid whose rows all have as many codes as the first. */
  predicate Rectangular(g: seq<seq<string>>) {
    |g| > 0 && forall i :: 0 <= i < |g| ==> |g[i]| == |g[0]|
  }

  /** `color_map.get(code, color_map['default'])`. */
  function Lookup(cmap: map<string, string>, code: string): string
    requires "default" in cmap
  {
    if code in cmap then cmap[code] else cmap["default"]
  }

  /** The square and the text of the code at row `i`, column `j`. */
  function CellTraces(i: nat, j: nat, code: string, color: string): seq<Trace> {
    [ Cell([j, j + 1, j + 1, j], [i, i, i + 1, i + 1], color),
      Label(j as real + 0.5, i as real + 0.5, code) ]
  }

  function RowTraces(i: nat, row: seq<string>, cmap: map<string, string>): (r: seq<Trace>)
    requires row != [] ==> "default" in cmap
    ensures |r| == 2 * |row|
    decreases |row|
  {
    if row == [] then []
    else
      var j := |row| - 1;
      RowTraces(i, row[..j], cmap) + CellTraces(i, j, row[j], Lookup(cmap, row[j]))
  }

  /** No cell needs a colour, or the fallback colour is there. */
  predicate Colourable(g: seq<seq<string>>, cmap: map<string, string>) {
    "default" in cmap || forall i :: 0 <= i < |g| ==> g[i] == []
  }

  /** The cell traces of the whole grid, row after row. */
  function GridTraces(g: seq<seq<string>>, cmap: map<string, string>): seq<Trace>
    requires Colourable(g, cmap)
    decreases |g|
  {
    if g == [] then []
    else
      var i := |g| - 1;
      GridTraces(g[..i], cmap) + RowTraces(i, g[i], cmap)
  }

  /** No slot before `k` carries the label of slot `k`. */
  predicate FirstWithLabel(slots: seq<Slot>, k: nat)
    requires k < |slots|
  {
    forall k' :: 0 <= k' < k ==> slots[k'].prop != slots[k].prop
  }

  ghost function Labels(slots: seq<Slot>): set<string> {
    set k | 0 <= k < |slots| :: slots[k].prop
  }

  /** `property_color_map`: label to colour, first entry wins. */
  function LegendMap(slots: seq<Slot>, cmap: map<string, string>): (m: OrderedMap<string, string>)
    requires slots != [] ==> "default" in cmap
    ensures m.Valid()
    decreases |slots|
  {
    if slots == [] then Empty()
    else
      var m := LegendMap(slots[..|slots| - 1], cmap);
      var s := slots[|slots| - 1];
      if s.prop in m.vals then m else m.Put(s.prop, Lookup(cmap, s.code))
  }

  /** One marker per label, in order, except for the placeholder label. */
  function Markers(keys: seq<string>, vals: map<string, string>): (r: seq<Trace>)
    requires forall t :: 0 <= t < |keys| ==> keys[t] in vals
    ensures forall t :: 0 <= t < |r| ==> r[t].Marker?
    decreases |keys|
  {
    if keys == [] then []
    else
      var p := keys[|keys| - 1];
      Markers(keys[..|keys| - 1], vals) + (if p != Placeholder then [Marker(vals[p], p)] else [])
  }

  ghost function MarkerNames(r: seq<Trace>): set<string> {
    set t | 0 <= t < |r| && r[t].Marker? :: r[t].name
  }

  /* ---------- decimal tick labels ---------- */

  function DigitChar(d: nat): char
    requires d < 10
  {
    (d + '0' as int) as char
  }

  /** `str(n)` for a natural number. */
  function NatToString(n: nat): (s: string)
    ensures s != [] && forall k :: 0 <= k < |s| ==> '0' <= s[k] <= '9'
    ensures |s| > 1 ==> s[0] != '0'
  {
    if n < 10 then [DigitChar(n)] else NatToString(n / 10) + [DigitChar(n % 10)]
  }

  /** The number a string of decimal digits denotes. */
  function DecimalValue(s: string): nat
    requires forall k :: 0 <= k < |s| ==> '0' <= s[k] <= '9'
  {
    if s == [] then 0
    else DecimalValue(s[..|s| - 1]) * 10 + (s[|s| - 1] as int - '0' as int)
  }

  /** Tick positions at the middle of each unit column or row. */
  function TickVals(n: nat): seq<real> {
    seq(n, k requires 0 <= k < n => k as real + 0.5)
  }

  /** `[str(i + 1) for i in range(n)]`. */
  function ColumnNumbers(n: nat): seq<string> {
    seq(n, k requires 0 <= k < n => NatToString(k + 1))
  }

  /* ---------- sizes ---------- */

  function Max(a: int, b: int): int { if a >= b then a else b }
  function MaxR(a: real, b: real): real { if a >= b then a else b }
  function MinR(a: real, b: real): real { if a <= b then a else b }

  /** Export size for `rows` records of `cols` codes: `w = cols * 43`,
      `h = max(430, rows * 43)`. */
  function ExportWidth(cols: nat): int { cols * 43 }
  function ExportHeight(rows: nat): int { Max(430, rows * 43) }

  /** On-screen size: `max(300, 0.5 * cols * 888)` wide and
      `min(0.3 * width, max(300, 0.05 * rows * 818))` high. */
  function PlotWidth(cols: nat): real {
    MaxR(300.0, 0.5 * cols as real * 888.0)
  }
  function PlotHeight(rows: nat, cols: nat): real {
    MinR(0.3 * MaxR(300.0, 0.5 * cols as real * 888.0), MaxR(300.0, 0.05 * rows as real * 818.0))
  }

  /* ---------- the plotting routine ---------- */

  /** The `property_color_map` loop: for each property-map value in
      order, a label not yet present gets the colour of the value's code.
      The lookup evaluates `color_map['default']`, so it fails when that
      key is missing. */
  method PropertyColorMap(pm: OrderedMap<nat, Slot>, cmap: map<string, string>)
      returns (ok: bool, legend: OrderedMap<string, string>)
    requires pm.Valid()
    ensures ok <==> pm.keys == [] || "default" in cmap
    ensures ok ==> legend == LegendMap(pm.Values(), cmap)
  {
    ghost var slots := pm.Values();
    legend := Empty();
    for t := 0 to |pm.keys|
      invariant t > 0 ==> "default" in cmap
      invariant legend == LegendMap(slots[..t], cmap)
    {
      var slot := pm.vals[pm.keys[t]];
      assert slot == slots[t];
      if slot.prop !in legend.vals {
        if "default" !in cmap {
          return false, legend;
        }
        legend := legend.Put(slot.prop, Lookup(cmap, slot.code));
      }
      LegendMapSnoc(slots, cmap, t);
    }
    assert slots[..|pm.keys|] == slots;
    ok := true;
  }

  lemma LegendMapSnoc(slots: seq<Slot>, cmap: map<string, string>, t: nat)
    requires t < |slots| && "default" in cmap
    ensures var m := LegendMap(slots[..t], cmap);
      LegendMap(slots[..t + 1], cmap)
      == if slots[t].prop in m.vals then m else m.Put(slots[t].prop, Lookup(cmap, slots[t].code))
  {
    assert slots[..t + 1][..t] == slots[..t];
  }

  /** The inner loop over row `i`: a square and a text trace per code. */
  method RowTraceList(i: nat, row: seq<string>, cmap: map<string, string>)
      returns (ok: bool, traces: seq<Trace>)
    ensures ok <==> row == [] || "default" in cmap
    ensures ok ==> traces == RowTraces(i, row, cmap)
  {
    traces := [];
    for j := 0 to |row|
      invariant j > 0 ==> "default" in cmap
      invariant traces == RowTraces(i, row[..j], cmap)
    {
      if "default" !in cmap {
        return false, traces;
      }
      var code := row[j];
      assert row[..j + 1][..j] == row[..j];
      traces := traces + CellTraces(i, j, code, Lookup(cmap, code));
    }
    assert row[..|row|] == row;
    ok := true;
  }

  /** The nested loops adding, cell by cell in row-major order, a square
      and a text trace. */
  method CellTraceList(g: seq<seq<string>>, cmap: map<string, string>)
      returns (ok: bool, traces: seq<Trace>)
    requires Rectangular(g)
    ensures ok <==> g[0] == [] || "default" in cmap
    ensures ok ==> Colourable(g, cmap) && traces == GridTraces(g, cmap)
  {
    traces := [];
    for i := 0 to |g|
      invariant i > 0 && g[0] != [] ==> "default" in cmap
      invariant Colourable(g[..i], cmap)
      invariant traces == GridTraces(g[..i], cmap)
    {
      var rowOk, rowTraces := RowTraceList(i, g[i], cmap);
      if !rowOk {
        return false, traces;
      }
      assert g[..i + 1][..i] == g[..i];
      traces := traces + rowTraces;
    }
    assert g[..|g|] == g;
    ok := true;
  }

  /** The legend loop: a marker for every label except the placeholder. */
  method LegendTraces(legend: OrderedMap<string, string>) returns (traces: seq<Trace>)
    requires legend.Valid()
    ensures traces == Markers(legend.keys, legend.vals)
  {
    traces := [];
    for t := 0 to |legend.keys|
      invariant traces == Markers(legend.keys[..t], legend.vals)
    {
      var p := legend.keys[t];
      assert legend.keys[..t + 1][..t] == legend.keys[..t];
      if p != Placeholder {
        traces := traces + [Marker(legend.vals[p], p)];
      }
    }
    assert legend.keys[..|legend.keys|] == legend.keys;
  }

  /** `plot_msa_plotly(names, seqs, color_map, property_map)`. */
  method PlotMsa(names: seq<string>, seqs: seq<string>, cmap: map<string, string>,
                 pm: OrderedMap<nat, Slot>) returns (r: PlotResult)
    requires Rectangular(Grid(seqs)) && pm.Valid()
    ensures r.MissingDefault? <==> "default" !in cmap && (pm.keys != [] || Grid(seqs)[0] != [])
    ensures r.Plotted? ==>
      var g := Grid(seqs);
      && Colourable(g, cmap) && (pm.Values() != [] ==> "default" in cmap)
      && r.w == ExportWidth(|g[0]|) && r.h == ExportHeight(|g|)
      && r.fig.traces == GridTraces(g, cmap) + Markers(LegendMap(pm.Values(), cmap).keys, LegendMap(pm.Values(), cmap).vals)
      && r.fig.xTickVals == TickVals(|g[0]|) && r.fig.xTickText == ColumnNumbers(|g[0]|)
      && r.fig.yTickVals == TickVals(|g|) && r.fig.yTickText == names
      && r.fig.width == PlotWidth(|g[0]|) && r.fig.height == PlotHeight(|g|, |g[0]|)
  {
    var g := Grid(seqs);
    // `len_seq, num_seq = seqs_array.shape`: records, then codes per record
    var rows, cols := |g|, |g[0]|;
    var w, h := ExportWidth(cols), ExportHeight(rows);
    var ok, legend := PropertyColorMap(pm, cmap);
    if !ok {
      return MissingDefault;
    }
    var cells;
    ok, cells := CellTraceList(g, cmap);
    if !ok {
      return MissingDefault;
    }
    var markers := LegendTraces(legend);
    var fig := Figure(cells + markers,
      TickVals(cols), ColumnNumbers(cols), TickVals(rows), names,
      PlotWidth(cols), PlotHeight(rows, cols));
    return Plotted(fig, w, h);
  }

  /* ---------- properties of the layout ---------- */

  lemma {:induction false} RowTracesAt(i: nat, row: seq<string>, cmap: map<string, string>, j: nat)
    requires "default" in cmap && j < |row|
    ensures RowTraces(i, row, cmap)[2 * j] == Cell([j, j + 1, j + 1, j], [i, i, i + 1, i + 1], Lookup(cmap, row[j]))
    ensures RowTraces(i, row, cmap)[2 * j + 1] == Label(j as real + 0.5, i as real + 0.5, row[j])
    decreases |row|
  {
    var n := |row| - 1;
    if j < n {
      RowTracesAt(i, row[..n], cmap, j);
      assert row[..n][j] == row[j];
    }
  }

  lemma MulSucc(c: nat, n: nat)
    ensures c * (n + 1) == c * n + c
  {
  }

  lemma {:induction false} GridTracesLength(g: seq<seq<string>>, cmap: map<string, string>, cols: nat)
    requires Colourable(g, cmap)
    requires forall k :: 0 <= k < |g| ==> |g[k]| == cols
    ensures |GridTraces(g, cmap)| == 2 * (cols * |g|)
    decreases |g|
  {
    if g != [] {
      var n := |g| - 1;
      var init := g[..n];
      assert forall k :: 0 <= k < n ==> |init[k]| == cols;
      GridTracesLength(init, cmap, cols);
      assert GridTraces(g, cmap) == GridTraces(init, cmap) + RowTraces(n, g[n], cmap);
      assert |RowTraces(n, g[n], cmap)| == 2 * cols;
      MulSucc(cols, n);
    }
  }

  /** The traces of row `i` directly follow those of the rows above it:
      the cell in column `j` is traced at position `2 * j` past them, as a
      square on the corners (j,i), (j+1,i), (j+1,i+1), (j,i+1) filled with
      the code's colour or the fallback colour, followed by its text,
      centred in the square. */
  lemma {:induction false} GridTracesAt(g: seq<seq<string>>, cmap: map<string, string>, i: nat, j: nat)
    requires "default" in cmap
    requires i < |g| && j < |g[i]|
    ensures var before := |GridTraces(g[..i], cmap)|;
      && before + 2 * j + 1 < |GridTraces(g, cmap)|
      && GridTraces(g, cmap)[before + 2 * j]
         == Cell([j, j + 1, j + 1, j], [i, i, i + 1, i + 1], Lookup(cmap, g[i][j]))
      && GridTraces(g, cmap)[before + 2 * j + 1]
         == Label(j as real + 0.5, i as real + 0.5, g[i][j])
    decreases |g|
  {
    var n := |g| - 1;
    var init := g[..n];
    assert GridTraces(g, cmap) == GridTraces(init, cmap) + RowTraces(n, g[n], cmap);
    if i < n {
      assert init[..i] == g[..i] && init[i] == g[i];
      GridTracesAt(init, cmap, i, j);
    } else {
      assert init == g[..i];
      RowTracesAt(n, g[n], cmap, j);
    }
  }

  /** With `cols` codes in every row, row `i`'s traces start at `2 * cols * i`. */
  lemma RowStart(g: seq<seq<string>>, cmap: map<string, string>, cols: nat, i: nat)
    requires "default" in cmap
    requires forall k :: 0 <= k < |g| ==> |g[k]| == cols
    requires i <= |g|
    ensures |GridTraces(g[..i], cmap)| == 2 * (cols * i)
    ensures |GridTraces(g, cmap)| == 2 * (cols * |g|)
  {
    assert forall k :: 0 <= k < i ==> |g[..i][k]| == cols;
    GridTracesLength(g[..i], cmap, cols);
    GridTracesLength(g, cmap, cols);
  }

  lemma LabelsSnoc(slots: seq<Slot>)
    requires slots != []
    ensures Labels(slots) == Labels(slots[..|slots| - 1]) + {slots[|slots| - 1].prop}
  {
    var n := |slots| - 1;
    var init := slots[..n];
    forall p ensures p in Labels(slots) <==> p in Labels(init) + {slots[n].prop} {
      if p in Labels(slots) {
        var k :| 0 <= k < |slots| && slots[k].prop == p;
        if k < n {
          assert init[k] == slots[k];
        }
      }
      if p in Labels(init) {
        var k :| 0 <= k < n && init[k].prop == p;
        assert slots[k] == init[k];
      }
    }
  }

  /** `property_color_map` has one key per distinct label of the property
      map. */
  lemma {:induction false} LegendMapKeys(slots: seq<Slot>, cmap: map<string, string>)
    requires slots != [] ==> "default" in cmap
    ensures LegendMap(slots, cmap).vals.Keys == Labels(slots)
    decreases |slots|
  {
    if slots != [] {
      var n := |slots| - 1;
      LegendMapKeys(slots[..n], cmap);
      LabelsSnoc(slots);
    }
  }

  /** One more value keeps every label's colour, and a new label gets
      the colour of the new value's code. */
  lemma LegendMapStep(slots: seq<Slot>, cmap: map<string, string>, p: string)
    requires slots != [] && "default" in cmap
    ensures var n := |slots| - 1; var m := LegendMap(slots[..n], cmap);
      && (p in m.vals ==> p in LegendMap(slots, cmap).vals && LegendMap(slots, cmap).vals[p] == m.vals[p])
      && (p !in m.vals && p == slots[n].prop ==>
            p in LegendMap(slots, cmap).vals && LegendMap(slots, cmap).vals[p] == Lookup(cmap, slots[n].code))
  {
  }

  /** The colour of a label is the one looked up for the code of the first
      property-map value carrying it. */
  lemma {:induction false} LegendMapFirst(slots: seq<Slot>, cmap: map<string, string>, k: nat)
    requires "default" in cmap
    requires k < |slots| && FirstWithLabel(slots, k)
    ensures slots[k].prop in LegendMap(slots, cmap).vals
    ensures LegendMap(slots, cmap).vals[slots[k].prop] == Lookup(cmap, slots[k].code)
    decreases |slots|
  {
    var n := |slots| - 1;
    var init := slots[..n];
    var p := slots[k].prop;
    LegendMapStep(slots, cmap, p);
    if k < n {
      assert init[k] == slots[k];
      assert FirstWithLabel(init, k) by {
        forall k' | 0 <= k' < k ensures init[k'].prop != init[k].prop {
          assert init[k'] == slots[k'];
        }
      }
      LegendMapFirst(init, cmap, k);
    } else {
      LegendMapKeys(init, cmap);
      assert p !in Labels(init) by {
        forall k' | 0 <= k' < n ensures init[k'].prop != p {
          assert init[k'] == slots[k'];
        }
      }
    }
  }

  /** Labels keep the place they were first given: the legend keys of a
      prefix of the property map lead the legend keys of the whole. */
  lemma {:induction false} LegendKeysGrow(slots: seq<Slot>, cmap: map<string, string>, n: nat)
    requires slots != [] ==> "default" in cmap
    requires n <= |slots|
    ensures LegendMap(slots[..n], cmap).keys <= LegendMap(slots, cmap).keys
    decreases |slots| - n
  {
    if n < |slots| {
      var m := |slots| - 1;
      assert slots[..m][..n] == slots[..n];
      LegendKeysGrow(slots[..m], cmap, n);
    } else {
      assert slots[..n] == slots;
    }
  }

  lemma {:induction false} MarkersSpec(keys: seq<string>, vals: map<string, string>)
    requires forall t :: 0 <= t < |keys| ==> keys[t] in vals
    ensures forall t :: 0 <= t < |Markers(keys, vals)| ==>
      var r := Markers(keys, vals)[t];
      r.Marker? && r.name in keys && r.name in vals && r.name != Placeholder && r.color == vals[r.name]
    ensures forall t :: 0 <= t < |keys| && keys[t] != Placeholder ==> Marker(vals[keys[t]], keys[t]) in Markers(keys, vals)
    ensures (forall a, b :: 0 <= a < b < |keys| ==> keys[a] != keys[b]) ==>
      forall a, b :: 0 <= a < b < |Markers(keys, vals)| ==> Markers(keys, vals)[a].name != Markers(keys, vals)[b].name
    decreases |keys|
  {
    if keys != [] {
      var n := |keys| - 1;
      var init := keys[..n];
      assert forall t :: 0 <= t < n ==> init[t] == keys[t];
      MarkersSpec(init, vals);
    }
  }

  lemma MarkerNamesAppend(a: seq<Trace>, b: seq<Trace>)
    ensures MarkerNames(a + b) == MarkerNames(a) + MarkerNames(b)
  {
    var c := a + b;
    forall p | p in MarkerNames(c) ensures p in MarkerNames(a) + MarkerNames(b) {
      var u :| 0 <= u < |c| && c[u].Marker? && c[u].name == p;
      if u < |a| {
        assert c[u] == a[u];
      } else {
        assert c[u] == b[u - |a|];
      }
    }
    forall p | p in MarkerNames(a) + MarkerNames(b) ensures p in MarkerNames(c) {
      if p in MarkerNames(a) {
        var u :| 0 <= u < |a| && a[u].Marker? && a[u].name == p;
        assert c[u] == a[u];
      } else {
        var u :| 0 <= u < |b| && b[u].Marker? && b[u].name == p;
        assert c[u + |a|] == b[u];
      }
    }
  }

  /** The markers are named by the keys, the placeholder left out. */
  lemma {:induction false} MarkerNamesOf(keys: seq<string>, vals: map<string, string>, q: string)
    requires forall t :: 0 <= t < |keys| ==> keys[t] in vals
    ensures q in MarkerNames(Markers(keys, vals)) <==> q in keys && q != Placeholder
    decreases |keys|
  {
    if keys != [] {
      var n := |keys| - 1;
      var init := keys[..n];
      var p := keys[n];
      assert forall t :: 0 <= t < n ==> init[t] == keys[t];
      MarkerNamesOf(init, vals, q);
      var last := if p != Placeholder then [Marker(vals[p], p)] else [];
      assert Markers(keys, vals) == Markers(init, vals) + last;
      MarkerNamesAppend(Markers(init, vals), last);
      assert q in MarkerNames(last) <==> q == p && q != Placeholder by {
        if p != Placeholder {
          assert last[0].name == p;
        }
      }
      assert keys == init + [p];
      assert q in keys <==> q in init || q == p;
    }
  }

  /** The legend shows a label iff it labels some property-map value and
      is not the em dash. */
  lemma LegendNames(slots: seq<Slot>, cmap: map<string, string>, p: string)
    requires slots != [] ==> "default" in cmap
    ensures var m := LegendMap(slots, cmap);
      p in MarkerNames(Markers(m.keys, m.vals)) <==> p in Labels(slots) && p != Placeholder
  {
    var m := LegendMap(slots, cmap);
    LegendMapKeys(slots, cmap);
    MarkerNamesOf(m.keys, m.vals, p);
    assert p in m.keys <==> p in m.vals;
  }

  /** Each label other than the em dash gets a marker coloured by the
      first property-map value carrying it. */
  lemma LegendColours(slots: seq<Slot>, cmap: map<string, string>)
    requires slots != [] ==> "default" in cmap
    ensures var m := LegendMap(slots, cmap);
      forall k :: 0 <= k < |slots| && FirstWithLabel(slots, k) && slots[k].prop != Placeholder ==>
        Marker(Lookup(cmap, slots[k].code), slots[k].prop) in Markers(m.keys, m.vals)
  {
    var m := LegendMap(slots, cmap);
    LegendMapKeys(slots, cmap);
    MarkersSpec(m.keys, m.vals);
    forall k | 0 <= k < |slots| && FirstWithLabel(slots, k) && slots[k].prop != Placeholder
      ensures Marker(Lookup(cmap, slots[k].code), slots[k].prop) in Markers(m.keys, m.vals)
    {
      LegendMapFirst(slots, cmap, k);
      var p := slots[k].prop;
      assert p in Labels(slots);
      var t :| 0 <= t < |m.keys| && m.keys[t] == p;
    }
  }

  /** Distinct keys give markers with distinct names. */
  lemma MarkersDistinct(keys: seq<string>, vals: map<string, string>)
    requires forall t :: 0 <= t < |keys| ==> keys[t] in vals
    requires forall a, b :: 0 <= a < b < |keys| ==> keys[a] != keys[b]
    ensures forall a, b :: 0 <= a < b < |Markers(keys, vals)| ==> Markers(keys, vals)[a].name != Markers(keys, vals)[b].name
  {
    MarkersSpec(keys, vals);
  }

  /** The legend has exactly one marker per distinct label other than the
      em dash: the names shown are those labels, each of them once. */
  lemma Legend(slots: seq<Slot>, cmap: map<string, string>)
    requires slots != [] ==> "default" in cmap
    ensures var m := LegendMap(slots, cmap); var r := Markers(m.keys, m.vals);
      && MarkerNames(r) == Labels(slots) - {Placeholder}
      && (forall a, b :: 0 <= a < b < |r| ==> r[a].name != r[b].name)
  {
    var m := LegendMap(slots, cmap);
    var r := Markers(m.keys, m.vals);
    assert MarkerNames(r) == Labels(slots) - {Placeholder} by {
      forall p ensures p in MarkerNames(r) <==> p in Labels(slots) - {Placeholder} {
        LegendNames(slots, cmap, p);
      }
    }
    assert m.Valid();
    MarkersDistinct(m.keys, m.vals);
  }

  /** The empty label (that of the `default` entry) is not the placeholder,
      so it gets a marker of its own. */
  lemma EmptyLabelShown(slots: seq<Slot>, cmap: map<string, string>, k: nat)
    requires "default" in cmap && k < |slots| && slots[k].prop == ""
    ensures "" in MarkerNames(Markers(LegendMap(slots, cmap).keys, LegendMap(slots, cmap).vals))
  {
    LegendNames(slots, cmap, "");
    assert "" in Labels(slots);
  }

  /** `str(n)` spells `n` in decimal. */
  lemma {:induction false} NatToStringValue(n: nat)
    ensures DecimalValue(NatToString(n)) == n
  {
    if n >= 10 {
      NatToStringValue(n / 10);
      var s := NatToString(n);
      assert s[..|s| - 1] == NatToString(n / 10);
    }
  }

  /** The x tick labels are the column numbers 1 to `cols`. */
  lemma ColumnNumbersSpec(cols: nat)
    ensures |ColumnNumbers(cols)| == cols
    ensures forall j :: 0 <= j < cols ==> DecimalValue(ColumnNumbers(cols)[j]) == j + 1
  {
    forall j | 0 <= j < cols ensures DecimalValue(ColumnNumbers(cols)[j]) == j + 1 {
      NatToStringValue(j + 1);
    }
  }

  /** The export is at least 430 pixels high and at least 43 pixels per
      record, exactly 43 per record from ten records on. */
  lemma ExportSizes(rows: nat, cols: nat)
    ensures ExportHeight(rows) >= 430 && ExportHeight(rows) >= 43 * rows
    ensures rows >= 10 ==> ExportHeight(rows) == 43 * rows
  {
  }

  /** On screen the width is 444 pixels per code, with a minimum of 300,
      and the height never exceeds three tenths of the width. */
  lemma PlotSizes(rows: nat, cols: nat)
    ensures cols >= 1 ==> PlotWidth(cols) == 444.0 * cols as real
    ensures cols == 0 ==> PlotWidth(cols) == 300.0
    ensures PlotHeight(rows, cols) <= 0.3 * PlotWidth(cols)
    ensures PlotHeight(rows, cols) >= 90.0
  {
  }

  /** More records never make the export smaller, nor do more codes. */
  lemma ExportSizesGrow(rows1: nat, rows2: nat, cols1: nat, cols2: nat)
    requires rows1 <= rows2 && cols1 <= cols2
    ensures ExportWidth(cols1) <= ExportWidth(cols2) && ExportHeight(rows1) <= ExportHeight(rows2)
  {
  }

  /** Nor the plot on screen. */
  lemma PlotSizesGrow(rows1: nat, rows2: nat, cols1: nat, cols2: nat)
    requires rows1 <= rows2 && cols1 <= cols2
    ensures PlotWidth(cols1) <= PlotWidth(cols2)
    ensures PlotHeight(rows1, cols1) <= PlotHeight(rows2, cols2)
  {
  }
}
