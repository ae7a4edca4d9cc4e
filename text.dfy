/** The output normaliser `clean_output` of v1/app_v1.py: strip the text, then
    replace every run of whitespace by one space. Python's `str.strip()` and the
    regular-expression class `\s` agree on which characters are whitespace;
    `IsSpace` is that fixed set. `Words` and `Join` are the reference
    definitions (`str.split()` and `' '.join`) the normaliser is proved against.

    The string functions carry only length facts in their contracts; what they
    compute is stated by the `...Spec` lemmas, which proofs call where needed. */
module TextNormalizer {

  /** Python's whitespace characters (`str.isspace()`, and `\s` on `str`). */
  predicate IsSpace(c: char) {
    var n := c as int;
    (0x09 <= n <= 0x0D) || (0x1C <= n <= 0x20) || n == 0x85 || n == 0xA0 ||
    n == 0x1680 || (0x2000 <= n <= 0x200A) || n == 0x2028 || n == 0x2029 ||
    n == 0x202F || n == 0x205F || n == 0x3000
  }

  predicate AllSpace(s: string) {
    forall i :: 0 <= i < |s| ==> IsSpace(s[i])
  }

  predicate NoSpace(s: string) {
    forall i :: 0 <= i < |s| ==> !IsSpace(s[i])
  }

  /** A word as `str.split()` yields it: non-empty, no whitespace inside. */
  predicate IsWord(w: string) {
    w != [] && NoSpace(w)
  }

  predicate AllWords(ws: seq<string>) {
    forall i :: 0 <= i < |ws| ==> IsWord(ws[i])
  }

  /** Every whitespace character is a plain space and no two are adjacent. */
  predicate SingleSpaced(r: string) {
    (forall i :: 0 <= i < |r| && IsSpace(r[i]) ==> r[i] == ' ') &&
    (forall i :: 0 <= i < |r| - 1 && IsSpace(r[i]) ==> !IsSpace(r[i + 1]))
  }

  /** The shape `clean_output` promises: single-spaced, nothing at either end. */
  predicate Normalized(r: string) {
    SingleSpaced(r) && (r != [] ==> !IsSpace(r[0]) && !IsSpace(r[|r| - 1]))
  }

  /** Removes the leading whitespace (the left half of `str.strip()`). */
  function TrimLeft(s: string): (r: string)
    ensures |r| <= |s|
    ensures s != [] && IsSpace(s[0]) ==> |r| < |s|
  {
    if s != [] && IsSpace(s[0]) then TrimLeft(s[1..]) else s
  }

  /** Removes the trailing whitespace (the right half of `str.strip()`). */
  function TrimRight(s: string): (r: string)
    ensures |r| <= |s|
  {
    if s != [] && IsSpace(s[|s| - 1]) then TrimRight(s[..|s| - 1]) else s
  }

  /** Python's `str.strip()` with no argument. */
  function Strip(s: string): string {
    TrimRight(TrimLeft(s))
  }

  /** `re.sub(r'\s+', ' ', t)`: scanning left to right, each maximal run of
      whitespace is replaced by a single space; other characters are kept. */
  function Collapse(t: string): string
    decreases |t|
  {
    if t == [] then []
    else if IsSpace(t[0]) then [' '] + Collapse(TrimLeft(t))
    else [t[0]] + Collapse(t[1..])
  }

  /** `clean_output(text)` (v1/app_v1.py:119-123). */
  function CleanOutput(text: string): string {
    Collapse(Strip(text))
  }

  /** The longest whitespace-free prefix of `t`. */
  function TakeWord(t: string): (w: string)
    ensures |w| <= |t|
    ensures t != [] && !IsSpace(t[0]) ==> |w| > 0
  {
    if t == [] || IsSpace(t[0]) then [] else [t[0]] + TakeWord(t[1..])
  }

  /** Python's `str.split()` with no argument: the maximal runs of
      non-whitespace characters, in order. */
  function Words(s: string): seq<string>
    decreases |s|
  {
    var t := TrimLeft(s);
    if t == [] then []
    else
      var w := TakeWord(t);
      [w] + Words(t[|w|..])
  }

  /** Python's `' '.join(ws)`. */
  function Join(ws: seq<string>): string {
    if ws == [] then []
    else if |ws| == 1 then ws[0]
    else ws[0] + [' '] + Join(ws[1..])
  }

  // ---------------------------------------------------------------------
  // What the helpers compute

  /** `TrimLeft(s)` is the suffix of `s` left after its whitespace prefix. */
  lemma {:induction false} TrimLeftSpec(s: string)
    ensures TrimLeft(s) == s[|s| - |TrimLeft(s)|..]
    ensures AllSpace(s[..|s| - |TrimLeft(s)|])
    ensures TrimLeft(s) == [] || !IsSpace(TrimLeft(s)[0])
    decreases |s|
  {
    if s != [] && IsSpace(s[0]) {
      TrimLeftSpec(s[1..]);
      var r := TrimLeft(s[1..]);
      assert s[..|s| - |r|] == [s[0]] + s[1..][..|s| - 1 - |r|];
    }
  }

  /** `TrimRight(s)` is the prefix of `s` before its whitespace suffix. */
  lemma {:induction false} TrimRightSpec(s: string)
    ensures TrimRight(s) == s[..|TrimRight(s)|]
    ensures AllSpace(s[|TrimRight(s)|..])
    ensures TrimRight(s) == [] || !IsSpace(TrimRight(s)[|TrimRight(s)| - 1])
    decreases |s|
  {
    if s != [] && IsSpace(s[|s| - 1]) {
      TrimRightSpec(s[..|s| - 1]);
      var r := TrimRight(s[..|s| - 1]);
      assert s[|r|..] == s[..|s| - 1][|r|..] + [s[|s| - 1]];
    }
  }

  /** `TakeWord(t)` is the longest prefix of `t` without whitespace. */
  lemma {:induction false} TakeWordSpec(t: string)
    ensures TakeWord(t) == t[..|TakeWord(t)|] && NoSpace(TakeWord(t))
    ensures |TakeWord(t)| == |t| || IsSpace(t[|TakeWord(t)|])
    decreases |t|
  {
    if t != [] && !IsSpace(t[0]) {
      TakeWordSpec(t[1..]);
    }
  }

  /** `Strip` leaves no whitespace at either end, and yields the empty text
      exactly when the input is all whitespace (Python's `not s.strip()`). */
  lemma StripSpec(s: string)
    ensures Strip(s) == [] || (!IsSpace(Strip(s)[0]) && !IsSpace(Strip(s)[|Strip(s)| - 1]))
    ensures Strip(s) == [] <==> AllSpace(s)
  {
    var t := TrimLeft(s);
    var r := TrimRight(t);
    TrimLeftSpec(s);
    TrimRightSpec(t);
    TrimLeftEmptyIffAllSpace(s);
  }

  lemma TrimLeftOfNonSpace(s: string)
    requires s == [] || !IsSpace(s[0])
    ensures TrimLeft(s) == s
  {
  }

  lemma TrimLeftEmptyIffAllSpace(s: string)
    ensures TrimLeft(s) == [] <==> AllSpace(s)
  {
  }

  lemma {:induction false} TrimLeftAppend(x: string, y: string)
    requires TrimLeft(x) != []
    ensures TrimLeft(x + y) == TrimLeft(x) + y
    decreases |x|
  {
    if IsSpace(x[0]) {
      assert (x + y)[1..] == x[1..] + y;
      TrimLeftAppend(x[1..], y);
    }
  }

  lemma {:induction false} TakeWordAppend(t: string, y: string)
    requires y == [] || IsSpace(y[0])
    ensures TakeWord(t + y) == TakeWord(t)
    decreases |t|
  {
    if t == [] {
      assert t + y == y;
    } else if !IsSpace(t[0]) {
      assert (t + y)[1..] == t[1..] + y;
      TakeWordAppend(t[1..], y);
    }
  }

  lemma {:induction false} TakeWordOfWord(w: string)
    requires NoSpace(w)
    ensures TakeWord(w) == w
    decreases |w|
  {
    if w != [] {
      assert !IsSpace(w[0]);
      assert NoSpace(w[1..]) by {
        forall i | 0 <= i < |w[1..]| ensures !IsSpace(w[1..][i]) {
          assert w[1..][i] == w[i + 1];
        }
      }
      TakeWordOfWord(w[1..]);
    }
  }

  /** Every element `Words` yields is a word. */
  lemma {:induction false} WordsAreWords(s: string)
    ensures AllWords(Words(s))
    decreases |s|
  {
    var t := TrimLeft(s);
    if t != [] {
      TrimLeftSpec(s);
      TakeWordSpec(t);
      var w := TakeWord(t);
      WordsAreWords(t[|w|..]);
      assert IsWord(w);
    }
  }

  // ---------------------------------------------------------------------
  // Words ignores surrounding whitespace

  lemma {:induction false} WordsTrailingSpace(x: string, sp: string)
    requires AllSpace(sp)
    ensures Words(x + sp) == Words(x)
    decreases |x|
  {
    var t := TrimLeft(x);
    if t == [] {
      TrimLeftEmptyIffAllSpace(x);
      assert AllSpace(x + sp);
      TrimLeftEmptyIffAllSpace(x + sp);
    } else {
      TrimLeftAppend(x, sp);
      var w := TakeWord(t);
      TakeWordAppend(t, sp);
      assert (t + sp)[|w|..] == t[|w|..] + sp;
      WordsTrailingSpace(t[|w|..], sp);
    }
  }

  lemma WordsOfTrimLeft(s: string)
    ensures Words(TrimLeft(s)) == Words(s)
  {
  }

  lemma WordsOfStrip(s: string)
    ensures Words(Strip(s)) == Words(s)
  {
    var t := TrimLeft(s);
    WordsOfTrimLeft(s);
    var u := TrimRight(t);
    TrimRightSpec(t);
    assert t == u + t[|u|..];
    WordsTrailingSpace(u, t[|u|..]);
  }

  // ---------------------------------------------------------------------
  // clean_output agrees with ' '.join(text.split())

  lemma {:induction false} CollapseWordPrefix(t: string)
    requires t != [] && !IsSpace(t[0])
    ensures Collapse(t) == TakeWord(t) + Collapse(t[|TakeWord(t)|..])
    decreases |t|
  {
    var rest := t[1..];
    if rest == [] || IsSpace(rest[0]) {
      assert TakeWord(t) == [t[0]];
    } else {
      CollapseWordPrefix(rest);
      var w := TakeWord(rest);
      assert rest[|w|..] == t[1 + |w|..];
    }
  }

  lemma {:induction false} CollapseIsJoinWords(t: string)
    requires t != [] && !IsSpace(t[0]) && !IsSpace(t[|t| - 1])
    ensures Collapse(t) == Join(Words(t))
    decreases |t|
  {
    var w := TakeWord(t);
    var rest := t[|w|..];
    CollapseWordPrefix(t);
    TrimLeftOfNonSpace(t);
    assert Words(t) == [w] + Words(rest);
    if rest == [] {
      TakeWordSpec(t);
      assert w == t;
    } else {
      TakeWordSpec(t);
      assert IsSpace(rest[0]);
      var u := TrimLeft(rest);
      TrimLeftSpec(rest);
      assert rest[|rest| - 1] == t[|t| - 1];
      TrimLeftEmptyIffAllSpace(rest);
      assert u != [];
      assert u[|u| - 1] == t[|t| - 1];
      CollapseIsJoinWords(u);
      WordsOfTrimLeft(rest);
      assert Collapse(rest) == [' '] + Collapse(u);
      var ws := Words(u);
      assert ws != [] by { TrimLeftOfNonSpace(u); }
      assert ([w] + ws)[1..] == ws;
    }
  }

  /** `clean_output(s) == ' '.join(s.split())`. */
  lemma CleanOutputIsJoinWords(s: string)
    ensures CleanOutput(s) == Join(Words(s))
  {
    var t := Strip(s);
    StripSpec(s);
    if t == [] {
      TrimLeftEmptyIffAllSpace(s);
    } else {
      CollapseIsJoinWords(t);
      WordsOfStrip(s);
    }
  }

  // ---------------------------------------------------------------------
  // Splitting undoes joining

  lemma {:induction false} WordsOfJoin(ws: seq<string>)
    requires AllWords(ws)
    ensures Words(Join(ws)) == ws
    decreases |ws|
  {
    if ws != [] {
      var w := ws[0];
      assert IsWord(w);
      TakeWordOfWord(w);
      if |ws| == 1 {
        TrimLeftOfNonSpace(w);
        assert w[|w|..] == [];
      } else {
        var j := Join(ws[1..]);
        var s := w + [' '] + j;
        assert s == w + ([' '] + j);
        TrimLeftOfNonSpace(s);
        TakeWordAppend(w, [' '] + j);
        assert s[|w|..] == [' '] + j;
        assert ([' '] + j)[1..] == j;
        assert Words([' '] + j) == Words(j);
        assert AllWords(ws[1..]) by {
          forall i | 0 <= i < |ws[1..]| ensures IsWord(ws[1..][i]) {
            assert ws[1..][i] == ws[i + 1];
          }
        }
        WordsOfJoin(ws[1..]);
      }
    }
  }

  // ---------------------------------------------------------------------
  // The shape of the result

  lemma {:induction false} JoinNormalized(ws: seq<string>)
    requires AllWords(ws)
    ensures Normalized(Join(ws))
    ensures ws != [] ==> Join(ws) != []
    decreases |ws|
  {
    if |ws| > 1 {
      var w := ws[0];
      var j := Join(ws[1..]);
      assert AllWords(ws[1..]) by {
        forall i | 0 <= i < |ws[1..]| ensures IsWord(ws[1..][i]) {
          assert ws[1..][i] == ws[i + 1];
        }
      }
      JoinNormalized(ws[1..]);
      assert IsWord(w);
      var r := w + [' '] + j;
      assert forall k :: 0 <= k < |w| ==> r[k] == w[k];
      assert forall k :: |w| < k < |r| ==> r[k] == j[k - |w| - 1];
      assert r[|r| - 1] == j[|j| - 1];
    } else if |ws| == 1 {
      assert IsWord(ws[0]);
    }
  }

  lemma {:induction false} CollapseSingleSpaced(r: string)
    requires SingleSpaced(r)
    ensures Collapse(r) == r
    decreases |r|
  {
    if r != [] {
      assert SingleSpaced(r[1..]) by {
        forall i | 0 <= i < |r[1..]| - 1 && IsSpace(r[1..][i]) ensures !IsSpace(r[1..][i + 1]) {
          assert r[1..][i] == r[i + 1] && r[1..][i + 1] == r[i + 2];
        }
      }
      if IsSpace(r[0]) {
        assert r[1..] == [] || !IsSpace(r[1..][0]);
        TrimLeftOfNonSpace(r[1..]);
        assert TrimLeft(r) == r[1..];
      }
      CollapseSingleSpaced(r[1..]);
    }
  }

  // ---------------------------------------------------------------------
  // The properties of clean_output

  /** The result has no whitespace at either end, no whitespace other than
      single spaces, and no two spaces in a row. */
  lemma CleanOutputShape(s: string)
    ensures Normalized(CleanOutput(s))
  {
    CleanOutputIsJoinWords(s);
    WordsAreWords(s);
    JoinNormalized(Words(s));
  }

  /** The words of the input survive unchanged and in order. */
  lemma CleanOutputPreservesWords(s: string)
    ensures Words(CleanOutput(s)) == Words(s)
  {
    CleanOutputIsJoinWords(s);
    WordsAreWords(s);
    WordsOfJoin(Words(s));
  }

  /** The texts `clean_output` leaves alone are exactly the normalized ones. */
  lemma CleanOutputFixedPoints(r: string)
    ensures CleanOutput(r) == r <==> Normalized(r)
  {
    if Normalized(r) {
      TrimLeftOfNonSpace(r);
      assert TrimRight(r) == r;
      CollapseSingleSpaced(r);
    } else {
      CleanOutputShape(r);
    }
  }

  lemma CleanOutputIdempotent(s: string)
    ensures CleanOutput(CleanOutput(s)) == CleanOutput(s)
  {
    CleanOutputShape(s);
    CleanOutputFixedPoints(CleanOutput(s));
  }
}
