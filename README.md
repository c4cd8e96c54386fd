# Peptoid MSA viewer: a verified model of its core

This project models the logic behind a small Streamlit app that draws multiple sequence alignments of peptoids. The model has three parts:

- **Reading.** `read_fasta` reads pasted text into record names and sequences.
- **Layout.** `plot_msa_plotly` lays the alignment out as a grid of coloured unit squares with a text label on each. It adds a legend of property labels and computes the figure and export sizes.
- **Registry.** The session state keeps colours and property labels in a colour/property registry. It is a colour map keyed by code and a property map keyed by slot number. Eleven standard entries and any number of added entries write into it.

Modules:

- `Tokens` (`tokens.dfy`): Python's `str.split()` with no argument, as a character-by-character scanner.
- `OrderedMaps` (`ordered_maps.dfy`): Python's insertion-ordered `dict`, as a key list plus a map.
- `Fasta` (`fasta.dfy`): `read_fasta`.
  - `Scan` is its specification. It recurses forward from line `i` to line `i+1`, carrying the names and sequences read so far as accumulators.
  - `ReadFasta` is the loop itself, proved equal to `Scan`.
  - The result is either `Parsed(names, seqs)` or `IndexOutOfRange`. The second stands for the `IndexError` raised when a line taken as a header is the last line.
- `Msa` (`msa.dfy`): `plot_msa_plotly`. The figure is a list of abstract traces: `Cell` is a filled square, `Label` is text, `Marker` is a legend entry. `PlotMsa` composes three loop methods and returns one of two results:
  - the figure with the export size;
  - `MissingDefault`, the `KeyError` of the eager `color_map['default']` in `color_map.get(code, color_map['default'])`.
- `Registry` (`registry.dfy`): the class `ColorRegistry` over the session state. Its methods are proved against the old state in one of two ways. `StandardPass`, `ApplyAdded`, `UpdateColorMap` and `VisibleRows` are proved against functions of the old state: `StandardColors`, `StandardSlots`, `AddedColors`, `AddedSlots` and `Visible`. `PaintEntry` is proved against `Paint` and `FillSlot`. `EditStandard`, `AddEntry`, `DeleteEntry` and `EditAdded` are stated as direct updates of the old fields.

## Model

| member | source | states |
|---|---|---|
| Tokens.SplitGivesTokens | peptoid_msa_st.py:46 | every token of `split()` is non-empty and contains no whitespace |
| Tokens.SplitKeepsCharacters | peptoid_msa_st.py:46 | the tokens, concatenated, are exactly the non-whitespace characters of the input, in order |
| Tokens.SplitTokenSpace | peptoid_msa_st.py:46 | a token followed by a space is split off as the first token |
| Tokens.SplitJoin | peptoid_msa_st.py:46 | splitting tokens joined by single spaces returns those tokens |
| Tokens.SplitSpace | peptoid_msa_st.py:46 | any whitespace character separates tokens: splitting `a + c + b` at a whitespace `c` gives the tokens of `a` followed by those of `b` |
| Tokens.SplitOnlySpace | peptoid_msa_st.py:46 | a string of whitespace only, or an empty one, splits into no tokens |
| Tokens.TrailingSpaceExample | peptoid_msa_st.py:182 | the polar code list `'303 307 '` splits into exactly `303` and `307`; the trailing space adds no empty code |
| OrderedMaps.OrderedMap.Put | peptoid_msa_st.py:62 | a dictionary write keeps the keys distinct and exactly the mapped ones |
| OrderedMaps.PutPut | peptoid_msa_st.py:219-221 | writing one key twice leaves the key order and values of the second write alone |
| Fasta.Scan | peptoid_msa_st.py:27-39 | names and sequences have equal length and only grow; an error arises only past the last line; record k comes from a header line p ≥ 2k, its name being the header without its first character and its sequence the next line |
| Fasta.ReadFasta | peptoid_msa_st.py:21-43 | the loop, with its redundant first-line block, returns what `Scan` returns from line 0; `len(names) == len(seqs)`; an index error reports the line count (that the counter stays twice the number of records is a loop invariant, not part of the contract) |
| Fasta.ScanAlternating | peptoid_msa_st.py:34-39 | on lines alternating header and sequence, every header is taken and no sequence line is examined as a possible header |
| Fasta.RoundTrip | peptoid_msa_st.py:27-39 | N strictly alternating records give back exactly the N names (first character dropped, leading spaces kept) and the N sequences, in order |
| Fasta.TrailingHeader | peptoid_msa_st.py:35-38 | after N well-formed records, a header on the last line is taken as a header, and reading its sequence fails with an index error at 2N+1 |
| Fasta.LastLineSequence | peptoid_msa_st.py:34-39 | a `>` line on the last line that is the previous header's sequence is not taken as a header: `['>a', '>b']` reads as one record `a` with sequence `>b` |
| Fasta.LaggingReread | peptoid_msa_st.py:34-39 | whenever the counter lags behind the line index, a header followed by a `>` line gives two records: the `>` line is the first one's sequence and the second one's header |
| Fasta.LaggingCounter | peptoid_msa_st.py:34-39 | after an extra non-header line the counter lags, so a `>` line already read as a sequence becomes the next header too |
| Msa.PropertyColorMap | peptoid_msa_st.py:57-62 | the legend-map loop fails exactly when a lookup happens without a `default` key; otherwise it builds `LegendMap` over the property-map values in iteration order |
| Msa.RowTraceList | peptoid_msa_st.py:68-92 | the inner cell loop over row i fails exactly when the row has a code but there is no `default` colour; otherwise it produces `RowTraces` |
| Msa.CellTraceList | peptoid_msa_st.py:67-92 | the nested cell loops fail exactly when there is a cell but no `default` colour; otherwise they produce `GridTraces` |
| Msa.LegendTraces | peptoid_msa_st.py:95-102 | the legend loop emits `Markers` of the legend map, in key order |
| Msa.PlotMsa | peptoid_msa_st.py:45-130 | the error case is exactly a missing `default` with a non-empty property map or a non-empty row. Otherwise: traces are cells then legend markers; export size is `(43·codes, max(430, 43·records))`; x ticks are column midpoints labelled `1..C`; y ticks are row midpoints labelled by the names; width and height follow the two formulas |
| Msa.RowTracesAt | peptoid_msa_st.py:68-92 | within a row, column j contributes its square at 2j and its text at 2j+1 |
| Msa.GridTracesAt | peptoid_msa_st.py:67-92 | the traces of row i follow those of the rows above. Cell (i,j) is then the square on corners (j,i),(j+1,i),(j+1,i+1),(j,i+1), filled with the code's colour or the fallback. Its text, centred at (j+½, i+½), comes next |
| Msa.GridTracesLength | peptoid_msa_st.py:67-68 | with C codes per row, the grid gives exactly 2·C traces per row |
| Msa.RowStart | peptoid_msa_st.py:67-68 | with C codes per row, row i's traces start at 2·C·i, so traces run cell by cell in row-major order |
| Msa.LegendMapSnoc | peptoid_msa_st.py:58-62 | loop step for `PropertyColorMap`, not a property in its own right: `LegendMap` of one more value, unfolded (the label is added only when absent) |
| Msa.LegendMapStep | peptoid_msa_st.py:61-62 | one more value keeps every existing label's colour; a new label gets the colour of the new value's code |
| Msa.LegendMapKeys | peptoid_msa_st.py:57-62 | the legend map has one key per distinct label among the property-map values |
| Msa.LegendMapFirst | peptoid_msa_st.py:57-62 | a label's colour is looked up from the code of the first property-map value carrying it |
| Msa.LegendKeysGrow | peptoid_msa_st.py:57-62 | labels keep the order in which they first occur: the legend keys of a prefix of the property map lead those of the whole |
| Msa.MarkersSpec | peptoid_msa_st.py:95-102 | each marker is named by a legend key other than `—` and coloured by it; every such key has a marker; distinct keys give distinct marker names |
| Msa.Markers | peptoid_msa_st.py:95-102 | the legend loop emits only marker traces |
| Msa.MarkersDistinct | peptoid_msa_st.py:95-102 | distinct legend keys give markers with distinct names |
| Msa.MarkerNamesOf | peptoid_msa_st.py:95-102 | a name is shown iff it is one of the keys and not `—` |
| Msa.LegendNames | peptoid_msa_st.py:57-102 | a label is shown iff some property-map value carries it and it is not `—` |
| Msa.LegendColours | peptoid_msa_st.py:57-102 | each label other than `—` gets a marker whose colour is looked up from the code of the first property-map value with that label |
| Msa.Legend | peptoid_msa_st.py:57-102 | the marker names are exactly the labels other than `—`, each exactly once |
| Msa.EmptyLabelShown | peptoid_msa_st.py:96 | the empty label of the `default` entry is not excluded; it gets a marker |
| Msa.NatToString | peptoid_msa_st.py:111 | `str(n)` is a non-empty string of decimal digits without a leading zero |
| Msa.NatToStringValue | peptoid_msa_st.py:111 | `str(n)` denotes n in decimal |
| Msa.ColumnNumbersSpec | peptoid_msa_st.py:110-111 | there are C x tick labels, and label j reads j+1 |
| Msa.ExportSizes | peptoid_msa_st.py:54-55 | export height is at least 430 and at least 43 per record, exactly 43 per record from ten records on |
| Msa.PlotSizes | peptoid_msa_st.py:126-127 | plot width is 444 per code (300 with no codes); height is at least 90 and never exceeds 0.3 × width |
| Msa.ExportSizesGrow | peptoid_msa_st.py:54-55 | more records or more codes never shrink the export |
| Msa.PlotSizesGrow | peptoid_msa_st.py:126-127 | more records or more codes never shrink the plot |
| Registry.InitialEntries | peptoid_msa_st.py:178-190 | there are eleven standard entries, the last being `default` with label `''` and colour `#FFFFFF` |
| Registry.ColorRegistry.constructor | peptoid_msa_st.py:172-201 | the first run starts with the standard entries, an empty colour map, an empty property map, no added entries and no skips |
| Registry.ColorRegistry.EditStandard | peptoid_msa_st.py:208-214 | the widgets of standard row k replace that entry and nothing else |
| Registry.ColorRegistry.PaintEntry | peptoid_msa_st.py:217-221 | one entry maps each of its split codes to its colour; each code rewrites slot idx, leaving `[last code, label]`, and an entry without codes leaves the slot alone; the registry stays well-formed |
| Registry.ColorRegistry.StandardPass | peptoid_msa_st.py:216-221 | the colour and property maps become `StandardColors` and `StandardSlots` of the old maps; entries and lists are unchanged |
| Registry.ColorRegistry.ApplyAdded | peptoid_msa_st.py:262-265 | every added entry, skipped ones included, written under its whole code string and its index: the maps become `AddedColors` and `AddedSlots` of the old maps |
| Registry.ColorRegistry.UpdateColorMap | peptoid_msa_st.py:256-265 | the standard pass, then every added entry, skipped ones included, written under its whole code string and its index |
| Registry.ColorRegistry.AddEntry | peptoid_msa_st.py:245-250 | a blank entry `('', '', '#ffffff')` is appended; nothing else changes |
| Registry.ColorRegistry.DeleteEntry | peptoid_msa_st.py:239-241 | the index is appended to the skip list; the entries keep their length and indices |
| Registry.ColorRegistry.EditAdded | peptoid_msa_st.py:229-237 | the widgets of a shown added row replace that entry and nothing else |
| Registry.ColorRegistry.VisibleRows | peptoid_msa_st.py:224-243 | widget row t shows the t-th non-skipped entry; there are `len(added) - len(skip)` of them, so every shown entry has its widget row |
| Registry.PaintAt | peptoid_msa_st.py:218-219 | painting maps every listed code to the colour and keeps every other key and value |
| Registry.StandardColorsLastWriter | peptoid_msa_st.py:216-219 | last writer wins: a code takes the colour of the last standard entry listing it |
| Registry.StandardColorsUntouched | peptoid_msa_st.py:216-219 | a code no standard entry lists keeps its colour, or stays absent |
| Registry.StandardColorsGrow | peptoid_msa_st.py:216-219 | the standard pass removes no colour-map key |
| Registry.StandardSlotsAt | peptoid_msa_st.py:216-221 | slot idx holds `[last code, label]` of standard entry idx; an entry without codes, or a slot past the standard entries, keeps its old value or stays absent |
| Registry.StandardSlotsGrow | peptoid_msa_st.py:216-221 | the standard pass keeps every slot, in its old order |
| Registry.AddedColorsLastWriter | peptoid_msa_st.py:262-264 | an added entry is keyed by its whole, unsplit code string; the last added entry with that string decides the colour |
| Registry.AddedColorsUntouched | peptoid_msa_st.py:262-264 | a key no added entry carries keeps its colour, or stays absent |
| Registry.AddedColorsGrow | peptoid_msa_st.py:262-264 | the added entries remove no colour-map key |
| Registry.AddedSlotsAt | peptoid_msa_st.py:262-265 | added entry i overwrites slot i with `[code, label]`, whatever the standard pass put there and whether or not i is skipped; later slots and the old order are kept |
| Registry.NeverCleared | peptoid_msa_st.py:216-265 | neither pass clears anything: every colour-map key and every slot survives, slots in their old order |
| Registry.FirstPassDefault | peptoid_msa_st.py:189-221 | the first standard pass maps `default` to `#FFFFFF` (that the key then stays defined follows from `NeverCleared` with the frame ensures of the other methods, not from this lemma) |
| Registry.StandardPassRestoresSlot | peptoid_msa_st.py:216-221 | the standard pass of the rerun after "Update Color Map" gives every standard entry with codes back its own slot, so an added entry at the index of a standard entry with codes never reaches a later plot's legend |
| Registry.AddedSlotSurvives | peptoid_msa_st.py:209-265 | at the index of a standard entry whose code list is empty, or past the standard entries, the slot an added entry wrote survives the standard pass of the next rerun (and, by `StandardSlotsAt`, any later one while that entry's code list stays empty); its label then reaches the legend unless it is `—` |
| Registry.StandardPassRestoresColor | peptoid_msa_st.py:216-219 | the standard pass of the rerun after "Update Color Map" gives every code a standard entry lists back the colour of the last such entry, whatever an added entry wrote |
| Registry.PolarEntry | peptoid_msa_st.py:182 | the polar entry colours exactly codes 303 and 307, and its slot ends as `[307, Polar]` |
| Registry.VisibleMembers | peptoid_msa_st.py:229-231 | an index is shown iff it is an entry index not in the skip list |
| Registry.VisibleSpec | peptoid_msa_st.py:229-231 | shown rows are exactly the non-skipped entries, in increasing index order |
| Registry.VisibleCount | peptoid_msa_st.py:224-226 | with distinct, in-range skips there are `len(added) - len(skip)` shown rows |
| Registry.VisibleGrows | peptoid_msa_st.py:229-243 | the shown rows before an index are a prefix of all shown rows |
| Registry.AddShows | peptoid_msa_st.py:245-250 | a new entry is shown as the last row, after the rows shown before |
| Registry.DeleteHides | peptoid_msa_st.py:239-241 | deleting a shown row keeps the skip list well-formed and hides exactly that row; the row count drops by one |

## Left out

- User interface: Streamlit page setup, widgets, CSS, columns, buttons, `st.rerun` and session-state persistence. Widget values are parameters of `EditStandard` and `EditAdded`, and the pressed delete button's index is the parameter of `DeleteEntry`; `AddEntry` takes none; the UI dictionaries `rows` and `rows_added` are represented only by how many widget rows `VisibleRows` needs.
- Which method runs on which rerun. On every rerun the script reads the widgets of the standard rows (`EditStandard`), runs the standard pass, and walks the shown added rows (`VisibleRows`, reading their widgets through `EditAdded`). Only `AddEntry`, `DeleteEntry` and `UpdateColorMap` are driven by buttons. Each operation is a method; the order of calls is up to the caller.
- Plotly: figure construction and styling (fonts, margins, transparent lines, reversed y axis) are not modelled. The traces keep only geometry, fill colour, text and legend name.
- `save_plot` rendering through kaleido at `scale=3` (lines 275-278) is a foreign library producing image bytes.
- Msa.PlotMsa: requires a non-empty grid with the same number of codes in every row.
  - Non-empty: the only caller, the "Show MSA" button (lines 284-285), first checks that the text starts with `>`. `read_fasta` then returns at least one record or raises.
  - Same width: for ragged input, what numpy's array shaping and the `ndim == 1` reshape give depends on the backend.
- Fasta.ReadFasta: takes the input as its list of lines. The Unicode line-break set of `str.splitlines()` is not modelled.
- Msa.PlotWidth, Msa.PlotHeight: computed over exact reals; IEEE rounding of `0.05 * 818` and `0.3 * …` is not modelled.
- The unused `property_map.get(code, 'default')` at line 71 is dead code, since the property map is keyed by integer slots.
- Colour strings are opaque: hex validity is not checked.
- Registry.ColorRegistry.DeleteEntry, Registry.ColorRegistry.EditAdded: require a shown row (an existing index not yet skipped), because the buttons and inputs exist only for those.
- Msa.LegendKeysGrow: states the legend's order through prefixes only, not as an explicit position for each label.
