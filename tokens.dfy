/** Whitespace tokenisation as done by Python's `str.split()` with no
    argument: runs of whitespace separate tokens, and leading or trailing
    whitespace produces no empty token. Both the alignment rows and the
    code lists of the colour registry are split this way. */
module Tokens {

  /** The characters Python's `str.isspace` accepts. */
  predicate IsSpace(c: char) {
    || c == ' '
    || ('\t' <= c <= '\r')
    || ('\U{1C}' <= c <= '\U{1F}')
    || c == '\U{85}' || c == '\U{A0}' || c == '\U{1680}'
    || ('\U{2000}' <= c <= '\U{200A}')
    || c == '\U{2028}' || c == '\U{2029}' || c == '\U{202F}'
    || c == '\U{205F}' || c == '\U{3000}'
  }

  predicate NoSpace(w: string) {
    forall k :: 0 <= k < |w| ==> !IsSpace(w[k])
  }

  /** What `split()` can produce: a non-empty run of non-whitespace. */
  predicate IsToken(w: string) {
    w != [] && NoSpace(w)
  }

  /** The token under construction, if there is one. */
  function Flush(cur: string): seq<string> {
    if cur == [] then [] else [cur]
  }

  /** Scans `s` left to right; `cur` holds the characters of the token
      being read. */
  function SplitFrom(s: string, cur: string): seq<string>
    decreases |s|
  {
    if s == [] then Flush(cur)
    else if IsSpace(s[0]) then Flush(cur) + SplitFrom(s[1..], "")
    else SplitFrom(s[1..], cur + [s[0]])
  }

  /** `s.split()`. */
  function Split(s: string): seq<string> {
    SplitFrom(s, "")
  }

  /** `' '.join(ws)`. */
  function Join(ws: seq<string>): string {
    if |ws| == 0 then ""
    else if |ws| == 1 then ws[0]
    else ws[0] + " " + Join(ws[1..])
  }

  /** The characters of `s` that are not whitespace, in order. */
  function RemoveSpaces(s: string): string {
    if s == [] then ""
    else (if IsSpace(s[0]) then "" else [s[0]]) + RemoveSpaces(s[1..])
  }

  function Concat(ws: seq<string>): string {
    if ws == [] then "" else ws[0] + Concat(ws[1..])
  }

  lemma {:induction false} ConcatAppend(a: seq<string>, b: seq<string>)
    ensures Concat(a + b) == Concat(a) + Concat(b)
  {
    if a != [] {
      assert (a + b)[1..] == a[1..] + b;
      ConcatAppend(a[1..], b);
    } else {
      assert a + b == b;
    }
  }

  lemma {:induction false} SplitFromTokens(s: string, cur: string)
    requires NoSpace(cur)
    ensures forall k :: 0 <= k < |SplitFrom(s, cur)| ==> IsToken(SplitFrom(s, cur)[k])
    decreases |s|
  {
    if s != [] {
      if IsSpace(s[0]) {
        SplitFromTokens(s[1..], "");
      } else {
        SplitFromTokens(s[1..], cur + [s[0]]);
      }
    }
  }

  /** Every token of `split()` is non-empty and free of whitespace. */
  lemma SplitGivesTokens(s: string)
    ensures forall k :: 0 <= k < |Split(s)| ==> IsToken(Split(s)[k])
  {
    SplitFromTokens(s, "");
  }

  /** Reading a whitespace-free run only extends the token under way. */
  lemma {:induction false} SplitFromWord(w: string, rest: string, cur: string)
    requires NoSpace(w)
    ensures SplitFrom(w + rest, cur) == SplitFrom(rest, cur + w)
  {
    if w == [] {
      assert w + rest == rest && cur + w == cur;
    } else {
      assert (w + rest)[0] == w[0];
      assert (w + rest)[1..] == w[1..] + rest;
      SplitFromWord(w[1..], rest, cur + [w[0]]);
      assert cur + [w[0]] + w[1..] == cur + w;
    }
  }

  /** A token followed by one space is split off as the first token. */
  lemma SplitTokenSpace(w: string, rest: string)
    requires IsToken(w)
    ensures Split(w + (" " + rest)) == [w] + Split(rest)
  {
    SplitFromWord(w, " " + rest, "");
    assert "" + w == w;
    assert (" " + rest)[1..] == rest;
  }

  /** Splitting tokens joined by single spaces gives the tokens back. */
  lemma {:induction false} SplitJoin(ws: seq<string>)
    requires forall k :: 0 <= k < |ws| ==> IsToken(ws[k])
    ensures Split(Join(ws)) == ws
  {
    if |ws| == 1 {
      assert IsToken(ws[0]);
      SplitFromWord(ws[0], "", "");
      assert ws[0] + "" == ws[0] && "" + ws[0] == ws[0];
    } else if |ws| > 1 {
      assert IsToken(ws[0]);
      assert Join(ws) == ws[0] + (" " + Join(ws[1..]));
      SplitTokenSpace(ws[0], Join(ws[1..]));
      SplitJoin(ws[1..]);
      assert ws == [ws[0]] + ws[1..];
    }
  }

  lemma {:induction false} SplitFromKeepsCharacters(s: string, cur: string)
    ensures Concat(SplitFrom(s, cur)) == cur + RemoveSpaces(s)
    decreases |s|
  {
    if s == [] {
      assert cur + "" == cur;
    } else if IsSpace(s[0]) {
      SplitFromKeepsCharacters(s[1..], "");
      ConcatAppend(Flush(cur), SplitFrom(s[1..], ""));
      assert "" + RemoveSpaces(s[1..]) == RemoveSpaces(s[1..]);
    } else {
      SplitFromKeepsCharacters(s[1..], cur + [s[0]]);
      assert cur + [s[0]] + RemoveSpaces(s[1..]) == cur + ([s[0]] + RemoveSpaces(s[1..]));
    }
  }

  /** No character is lost or invented: the tokens, put end to end, are
      exactly the non-whitespace characters of the input. */
  lemma SplitKeepsCharacters(s: string)
    ensures Concat(Split(s)) == RemoveSpaces(s)
  {
    SplitFromKeepsCharacters(s, "");
    assert "" + RemoveSpaces(s) == RemoveSpaces(s);
  }

  lemma {:induction false} SplitFromSpace(a: string, c: char, b: string, cur: string)
    requires IsSpace(c)
    ensures SplitFrom(a + [c] + b, cur) == SplitFrom(a, cur) + Split(b)
    decreases |a|
  {
    if a == [] {
      assert a + [c] + b == [c] + b;
      assert ([c] + b)[1..] == b;
    } else {
      assert (a + [c] + b)[0] == a[0];
      assert (a + [c] + b)[1..] == a[1..] + [c] + b;
      if IsSpace(a[0]) {
        SplitFromSpace(a[1..], c, b, "");
      } else {
        SplitFromSpace(a[1..], c, b, cur + [a[0]]);
      }
    }
  }

  /** Whitespace separates tokens: splitting at any whitespace character
      splits the two sides independently, so no token spans it. */
  lemma SplitSpace(a: string, c: char, b: string)
    requires IsSpace(c)
    ensures Split(a + [c] + b) == Split(a) + Split(b)
  {
    SplitFromSpace(a, c, b, "");
  }

  /** A string of whitespace alone, the empty one included, has no tokens. */
  lemma {:induction false} SplitOnlySpace(s: string)
    requires forall k :: 0 <= k < |s| ==> IsSpace(s[k])
    ensures Split(s) == []
  {
    if s != [] {
      assert IsSpace(s[0]);
      assert forall k :: 0 <= k < |s[1..]| ==> s[1..][k] == s[k + 1];
      SplitOnlySpace(s[1..]);
    }
  }

  /** The code list of the standard "polar" entry, written with a trailing
      space, yields exactly two codes. */
  lemma TrailingSpaceExample()
    ensures Split("303 307 ") == ["303", "307"]
  {
    var a, b := "303", "307";
    assert IsToken(a) && IsToken(b);
    assert "303 307 " == a + (" " + (b + (" " + "")));
    SplitTokenSpace(a, b + (" " + ""));
    SplitTokenSpace(b, "");
  }
}
