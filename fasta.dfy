/** The FASTA-like reader of the viewer (`read_fasta`). The pasted text is
    taken as its list of lines. Each header line (one starting with `>`)
    yields a name, the header without its first character, and a
    sequence, the line that follows it verbatim. A counter of lines
    consumed, two per record, decides which lines are looked at: line `i`
    is examined as a possible header only when `i` has reached the counter. */
module Fasta {

  /** The reader's outcome: the names and sequences, or the `IndexError`
      raised when a header is taken on the last line. */
  datatype Parse =
    | Parsed(names: seq<string>, seqs: seq<string>)
    | IndexOutOfRange(index: nat)

  predicate IsHeader(line: string) {
    |line| > 0 && line[0] == '>'
  }

  /** Line `p` is a header whose name is `name` and whose next line is
      `sequence`. */
  predicate RecordAt(lines: seq<string>, p: nat, name: string, sequence: string) {
    p + 1 < |lines| && IsHeader(lines[p]) && name == lines[p][1..] && sequence == lines[p + 1]
  }

  /** Record number `k` can come from some header at a line `p >= 2 * k`. */
  ghost predicate ReadFromHeader(lines: seq<string>, k: nat, name: string, sequence: string) {
    exists p: nat :: 2 * k <= p && RecordAt(lines, p, name, sequence)
  }

  /** The reader from line `i` on, with `names` and `seqs` read so far; the
      line counter is `2 * |names|`. */
  function Scan(lines: seq<string>, i: nat, names: seq<string>, seqs: seq<string>): (r: Parse)
    requires i <= |lines| && |names| == |seqs|
    ensures r.Parsed? ==> |r.names| == |r.seqs|
    ensures r.Parsed? ==> names <= r.names && seqs <= r.seqs
    ensures r.IndexOutOfRange? ==> r.index == |lines|
    /* every record read from line `i` on comes from a header at a line `p`
       no earlier than twice its own index */
    ensures r.Parsed? ==> forall k :: |names| <= k < |r.names| ==>
      ReadFromHeader(lines, k, r.names[k], r.seqs[k])
    decreases |lines| - i
  {
    if i == |lines| then Parsed(names, seqs)
    else if i >= 2 * |names| && IsHeader(lines[i]) then
      if i + 1 < |lines| then
        var r := Scan(lines, i + 1, names + [lines[i][1..]], seqs + [lines[i + 1]]);
        assert r.Parsed? ==> RecordAt(lines, i, r.names[|names|], r.seqs[|names|]);
        assert r.Parsed? ==> ReadFromHeader(lines, |names|, r.names[|names|], r.seqs[|names|]);
        r
      else IndexOutOfRange(i + 1)
    else Scan(lines, i + 1, names, seqs)
  }

  /** `read_fasta` over the lines of the pasted text. */
  method ReadFasta(lines: seq<string>) returns (r: Parse)
    ensures r == Scan(lines, 0, [], [])
    ensures r.Parsed? ==> |r.names| == |r.seqs|
    ensures r.IndexOutOfRange? ==> r.index == |lines|
  {
    var names: seq<string> := [];
    var seqs: seq<string> := [];
    var count := 0;
    for i := 0 to |lines|
      invariant |names| == |seqs| && count == 2 * |names|
      invariant i == 0 ==> names == [] && seqs == []
      invariant Scan(lines, i, names, seqs) == Scan(lines, 0, [], [])
    {
      if i == 0 {
        if IsHeader(lines[i]) {
          names := names + [lines[i][1..]];
          count := count + 1;
          if i + 1 >= |lines| {
            return IndexOutOfRange(i + 1);
          }
          seqs := seqs + [lines[i + 1]];
          count := count + 1;
          assert names == [lines[0][1..]] && seqs == [lines[1]];
          assert Scan(lines, 0, [], []) == Scan(lines, 1, names, seqs);
        }
      }
      if i >= count {
        if IsHeader(lines[i]) {
          names := names + [lines[i][1..]];
          count := count + 1;
          if i + 1 >= |lines| {
            return IndexOutOfRange(i + 1);
          }
          seqs := seqs + [lines[i + 1]];
          count := count + 1;
        }
      }
    }
    return Parsed(names, seqs);
  }

  /** Well-formed input: `>name` then the sequence, record after record. */
  function Alternate(names: seq<string>, seqs: seq<string>): (lines: seq<string>)
    requires |names| == |seqs|
    ensures |lines| == 2 * |names|
  {
    if names == [] then []
    else [">" + names[0], seqs[0]] + Alternate(names[1..], seqs[1..])
  }

  lemma {:induction false} AlternateAt(names: seq<string>, seqs: seq<string>, k: nat)
    requires |names| == |seqs| && k < |names|
    ensures Alternate(names, seqs)[2 * k] == ">" + names[k]
    ensures Alternate(names, seqs)[2 * k + 1] == seqs[k]
  {
    if k > 0 {
      AlternateAt(names[1..], seqs[1..], k - 1);
    }
  }

  /** While the lines alternate header, sequence, the reader takes every
      header and never looks at a sequence line as a possible header. */
  lemma {:induction false} ScanAlternating(lines: seq<string>, names: seq<string>, seqs: seq<string>, k: nat)
    requires |names| == |seqs| && k <= |names| && 2 * |names| <= |lines|
    requires forall t :: 0 <= t < |names| ==> lines[2 * t] == ">" + names[t] && lines[2 * t + 1] == seqs[t]
    ensures Scan(lines, 2 * k, names[..k], seqs[..k]) == Scan(lines, 2 * |names|, names, seqs)
    decreases |names| - k
  {
    if k < |names| {
      var h := lines[2 * k];
      assert h == ">" + names[k] && IsHeader(h);
      assert h[1..] == names[k];
      assert names[..k] + [names[k]] == names[..k + 1];
      assert seqs[..k] + [seqs[k]] == seqs[..k + 1];
      assert Scan(lines, 2 * k, names[..k], seqs[..k]) == Scan(lines, 2 * k + 1, names[..k + 1], seqs[..k + 1]);
      assert Scan(lines, 2 * k + 1, names[..k + 1], seqs[..k + 1]) == Scan(lines, 2 * (k + 1), names[..k + 1], seqs[..k + 1]);
      ScanAlternating(lines, names, seqs, k + 1);
    } else {
      assert names[..k] == names && seqs[..k] == seqs;
    }
  }

  /** Strictly alternating input of N records gives back exactly the N
      names and N sequences, in input order; a name keeps everything after
      the `>`, leading spaces included. */
  lemma RoundTrip(names: seq<string>, seqs: seq<string>)
    requires |names| == |seqs|
    ensures Scan(Alternate(names, seqs), 0, [], []) == Parsed(names, seqs)
  {
    var lines := Alternate(names, seqs);
    forall t | 0 <= t < |names|
      ensures lines[2 * t] == ">" + names[t] && lines[2 * t + 1] == seqs[t]
    {
      AlternateAt(names, seqs, t);
    }
    ScanAlternating(lines, names, seqs, 0);
  }

  /** After N well-formed records, a header on the last line is taken as a
      header, and reading the line after it fails. */
  lemma TrailingHeader(names: seq<string>, seqs: seq<string>, h: string)
    requires |names| == |seqs| && IsHeader(h)
    ensures Scan(Alternate(names, seqs) + [h], 0, [], []) == IndexOutOfRange(2 * |names| + 1)
  {
    var lines := Alternate(names, seqs) + [h];
    forall t | 0 <= t < |names|
      ensures lines[2 * t] == ">" + names[t] && lines[2 * t + 1] == seqs[t]
    {
      AlternateAt(names, seqs, t);
    }
    ScanAlternating(lines, names, seqs, 0);
    assert lines[2 * |names|] == h;
  }

  /** A `>` line on the last line is not always taken as a header: when it
      is the sequence of the header before it, the reader ends normally. */
  lemma LastLineSequence()
    ensures Scan([">a", ">b"], 0, [], []) == Parsed(["a"], [">b"])
  {
    var lines := [">a", ">b"];
    assert IsHeader(lines[0]) && lines[0][1..] == "a";
    calc {
      Scan(lines, 0, [], []);
      Scan(lines, 1, ["a"], [">b"]);
      Scan(lines, 2, ["a"], [">b"]);
    }
  }

  /** Once the counter lags behind the line index, a header whose next line
      also starts with `>` gives two records: that line is the first
      header's sequence and is then taken as a header in its own right. */
  lemma LaggingReread(lines: seq<string>, i: nat, names: seq<string>, seqs: seq<string>)
    requires |names| == |seqs| && i + 2 < |lines| && 2 * |names| < i
    requires IsHeader(lines[i]) && IsHeader(lines[i + 1])
    ensures Scan(lines, i, names, seqs)
         == Scan(lines, i + 2, names + [lines[i][1..], lines[i + 1][1..]], seqs + [lines[i + 1], lines[i + 2]])
  {
    var names1, seqs1 := names + [lines[i][1..]], seqs + [lines[i + 1]];
    assert Scan(lines, i, names, seqs) == Scan(lines, i + 1, names1, seqs1);
    assert names1 + [lines[i + 1][1..]] == names + [lines[i][1..], lines[i + 1][1..]];
    assert seqs1 + [lines[i + 2]] == seqs + [lines[i + 1], lines[i + 2]];
  }

  /** After one extra non-header line the counter lags behind: a header's
      sequence line that itself starts with `>` is read again as the next
      header. */
  lemma LaggingCounter()
    ensures Scan([">a", "s", "x", ">b", ">c", "t"], 0, [], [])
         == Parsed(["a", "b", "c"], ["s", ">c", "t"])
  {
    var lines := [">a", "s", "x", ">b", ">c", "t"];
    assert IsHeader(lines[0]) && lines[0][1..] == "a";
    assert !IsHeader(lines[2]);
    assert IsHeader(lines[3]) && lines[3][1..] == "b";
    assert IsHeader(lines[4]) && lines[4][1..] == "c";
    calc {
      Scan(lines, 0, [], []);
      Scan(lines, 1, ["a"], ["s"]);
      Scan(lines, 2, ["a"], ["s"]);
      Scan(lines, 3, ["a"], ["s"]);
      Scan(lines, 4, ["a", "b"], ["s", ">c"]);
      Scan(lines, 5, ["a", "b", "c"], ["s", ">c", "t"]);
      Scan(lines, 6, ["a", "b", "c"], ["s", ">c", "t"]);
    }
  }
}
