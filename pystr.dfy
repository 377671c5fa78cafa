/** Python's `str.split()` called without a separator: the tokenizer of
    `preprocess_input`. Runs of whitespace separate tokens, and whitespace at
    either end produces no token. */
module PyStr {

  /** Python's `str.isspace` for one character: the ASCII controls TAB to CR,
      the separators FS, GS, RS, US, SPACE, NEXT LINE, NO-BREAK SPACE, and the
      Unicode spaces and line/paragraph separators. */
  predicate IsSpace(c: char) {
    var n := c as int;
    || 0x09 <= n <= 0x0D
    || 0x1C <= n <= 0x20
    || n == 0x85 || n == 0xA0 || n == 0x1680
    || 0x2000 <= n <= 0x200A
    || n == 0x2028 || n == 0x2029 || n == 0x202F || n == 0x205F || n == 0x3000
  }

  predicate NoSpace(s: string) {
    forall i :: 0 <= i < |s| ==> !IsSpace(s[i])
  }

  predicate AllSpace(s: string) {
    forall i :: 0 <= i < |s| ==> IsSpace(s[i])
  }

  /** A token as `str.split()` produces it: non-empty, free of whitespace. */
  predicate IsToken(t: string) {
    |t| > 0 && NoSpace(t)
  }

  /** The longest prefix of `s` that holds no whitespace. */
  function Word(s: string): (w: string)
    ensures |w| <= |s| && w == s[..|w|]
    ensures NoSpace(w)
    ensures |w| < |s| ==> IsSpace(s[|w|])
  {
    if s == [] || IsSpace(s[0]) then [] else [s[0]] + Word(s[1..])
  }

  /** `s.split()`: skip whitespace, take the longest run without whitespace
      as the next token, repeat. */
  function Split(s: string): (tokens: seq<string>)
    ensures forall i :: 0 <= i < |tokens| ==> IsToken(tokens[i])
    decreases |s|
  {
    if s == [] then []
    else if IsSpace(s[0]) then Split(s[1..])
    else
      var w := Word(s);
      [w] + Split(s[|w|..])
  }

  /** `" ".join(tokens)` */
  function Join(tokens: seq<string>): string {
    if tokens == [] then []
    else if |tokens| == 1 then tokens[0]
    else tokens[0] + " " + Join(tokens[1..])
  }

  /** `"".join(tokens)` */
  function Concat(tokens: seq<string>): string {
    if tokens == [] then [] else tokens[0] + Concat(tokens[1..])
  }

  /** `s` with every whitespace character deleted. */
  function RemoveSpaces(s: string): string {
    if s == [] then []
    else (if IsSpace(s[0]) then [] else [s[0]]) + RemoveSpaces(s[1..])
  }

  /** A whitespace character ends the first word: what follows it is never
      part of that word. */
  lemma {:induction false} WordStopsAtSpace(a: string, c: char, b: string)
    requires IsSpace(c)
    ensures Word(a + [c] + b) == Word(a)
    decreases |a|
  {
    if a == [] {
      assert (a + [c] + b)[0] == c;
    } else if !IsSpace(a[0]) {
      assert (a + [c] + b)[0] == a[0];
      assert (a + [c] + b)[1..] == a[1..] + [c] + b;
      WordStopsAtSpace(a[1..], c, b);
    }
  }

  /** Splitting at one whitespace character: the tokens of the two sides,
      concatenated. */
  lemma {:induction false} SplitAtSpace(a: string, c: char, b: string)
    requires IsSpace(c)
    ensures Split(a + [c] + b) == Split(a) + Split(b)
    decreases |a|
  {
    var s := a + [c] + b;
    if a == [] {
      assert s[1..] == b;
    } else if IsSpace(a[0]) {
      assert s[1..] == a[1..] + [c] + b;
      SplitAtSpace(a[1..], c, b);
    } else {
      var w := Word(a);
      WordStopsAtSpace(a, c, b);
      assert s[|w|..] == a[|w|..] + [c] + b;
      SplitAtSpace(a[|w|..], c, b);
    }
  }

  /** Tokens come out empty exactly when the text is all whitespace
      (the empty text included). */
  lemma {:induction false} SplitEmptyIffAllSpace(s: string)
    ensures Split(s) == [] <==> AllSpace(s)
    decreases |s|
  {
    if s != [] {
      SplitEmptyIffAllSpace(s[1..]);
      if IsSpace(s[0]) {
        assert AllSpace(s) <==> AllSpace(s[1..]) by {
          if AllSpace(s[1..]) {
            forall i | 0 <= i < |s| ensures IsSpace(s[i]) {
              if i > 0 { assert s[i] == s[1..][i - 1]; }
            }
          }
        }
      }
    }
  }

  /** Leading whitespace yields no token. */
  lemma {:induction false} SplitDropsLeadingSpace(ws: string, s: string)
    requires AllSpace(ws)
    ensures Split(ws + s) == Split(s)
    decreases |ws|
  {
    if ws != [] {
      assert (ws + s)[0] == ws[0];
      assert (ws + s)[1..] == ws[1..] + s;
      assert AllSpace(ws[1..]) by {
        forall i | 0 <= i < |ws[1..]| ensures IsSpace(ws[1..][i]) {
          assert ws[1..][i] == ws[i + 1];
        }
      }
      SplitDropsLeadingSpace(ws[1..], s);
    } else {
      assert ws + s == s;
    }
  }

  /** Trailing whitespace yields no token. */
  lemma SplitDropsTrailingSpace(s: string, ws: string)
    requires AllSpace(ws)
    ensures Split(s + ws) == Split(s)
  {
    if ws == [] {
      assert s + ws == s;
    } else {
      assert s + ws == s + [ws[0]] + ws[1..];
      SplitAtSpace(s, ws[0], ws[1..]);
      SplitEmptyIffAllSpace(ws[1..]);
    }
  }

  /** A run of whitespace of any non-zero length separates tokens exactly as
      a single whitespace character does. */
  lemma SplitAtSpaceRun(a: string, ws: string, b: string)
    requires |ws| > 0 && AllSpace(ws)
    ensures Split(a + ws + b) == Split(a) + Split(b)
  {
    assert a + ws + b == a + [ws[0]] + (ws[1..] + b);
    SplitAtSpace(a, ws[0], ws[1..] + b);
    SplitDropsLeadingSpace(ws[1..], b);
  }

  /** A single token splits to itself. */
  lemma SplitOfToken(t: string)
    requires IsToken(t)
    ensures Split(t) == [t]
  {
    var w := Word(t);
    assert w == t;
    assert t[|t|..] == [];
  }

  /** Splitting inverts joining with single spaces, for tokens that
      `str.split()` could have produced. */
  lemma {:induction false} SplitJoin(tokens: seq<string>)
    requires forall i :: 0 <= i < |tokens| ==> IsToken(tokens[i])
    ensures Split(Join(tokens)) == tokens
    decreases |tokens|
  {
    if |tokens| == 1 {
      SplitOfToken(tokens[0]);
    } else if |tokens| > 1 {
      SplitAtSpace(tokens[0], ' ', Join(tokens[1..]));
      SplitOfToken(tokens[0]);
      SplitJoin(tokens[1..]);
    }
  }

  lemma {:induction false} RemoveSpacesAppend(a: string, b: string)
    ensures RemoveSpaces(a + b) == RemoveSpaces(a) + RemoveSpaces(b)
    decreases |a|
  {
    if a != [] {
      assert (a + b)[0] == a[0];
      assert (a + b)[1..] == a[1..] + b;
      RemoveSpacesAppend(a[1..], b);
    } else {
      assert a + b == b;
    }
  }

  lemma {:induction false} RemoveSpacesKeepsWord(w: string)
    requires NoSpace(w)
    ensures RemoveSpaces(w) == w
    decreases |w|
  {
    if w != [] {
      RemoveSpacesKeepsWord(w[1..]);
    }
  }

  /** No character is lost but whitespace: the tokens, concatenated, are the
      text with its whitespace deleted. */
  lemma {:induction false} ConcatSplit(s: string)
    ensures Concat(Split(s)) == RemoveSpaces(s)
    decreases |s|
  {
    if s != [] {
      if IsSpace(s[0]) {
        ConcatSplit(s[1..]);
      } else {
        var w := Word(s);
        var rest := Split(s[|w|..]);
        assert ([w] + rest)[0] == w && ([w] + rest)[1..] == rest;
        ConcatSplit(s[|w|..]);
        assert s == w + s[|w|..];
        RemoveSpacesAppend(w, s[|w|..]);
        RemoveSpacesKeepsWord(w);
      }
    }
  }
}
