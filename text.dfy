/** Text utilities that behave like the JavaScript string built-ins the
    desktop simulator relies on: `split` with a one-character separator,
    `filter(Boolean)`, `join`, `trim` and number-to-decimal formatting. */
module Text {

  datatype Option<T> = None | Some(value: T)

  /** True when no character of `s` belongs to `seps`. */
  predicate Free(s: string, seps: set<char>) {
    forall i :: 0 <= i < |s| ==> s[i] !in seps
  }

  /** `s.split(c)` for every separator character `c` in `seps` at once: each
      separator character ends one piece, so a run of separators yields empty
      pieces, and the empty string splits into one empty piece. */
  function Split(s: string, seps: set<char>): (r: seq<string>)
    ensures |r| >= 1
  {
    if s == [] then [""]
    else
      var rest := Split(s[1..], seps);
      if s[0] in seps then [""] + rest
      else [[s[0]] + rest[0]] + rest[1..]
  }

  /** No piece holds a separator. */
  lemma {:induction false} SplitPieces(s: string, seps: set<char>)
    ensures forall i :: 0 <= i < |Split(s, seps)| ==> Free(Split(s, seps)[i], seps)
  {
    if s != [] {
      SplitPieces(s[1..], seps);
      var rest := Split(s[1..], seps);
      if s[0] !in seps {
        assert Free([s[0]] + rest[0], seps);
      }
    }
  }

  /** `xs.filter(Boolean)` on strings: drops the empty strings, keeps order. */
  function NonEmpty(xs: seq<string>): (r: seq<string>)
    ensures |r| <= |xs|
  {
    if xs == [] then []
    else if xs[0] == "" then NonEmpty(xs[1..])
    else [xs[0]] + NonEmpty(xs[1..])
  }

  /** `xs.join(sep)`: the empty array joins to the empty string. */
  function Join(xs: seq<string>, sep: string): string {
    if xs == [] then ""
    else if |xs| == 1 then xs[0]
    else xs[0] + sep + Join(xs[1..], sep)
  }

  lemma {:induction false} NonEmptyAppend(a: seq<string>, b: seq<string>)
    ensures NonEmpty(a + b) == NonEmpty(a) + NonEmpty(b)
  {
    if a == [] {
      assert a + b == b;
    } else {
      assert (a + b)[1..] == a[1..] + b;
      NonEmptyAppend(a[1..], b);
    }
  }

  /** `filter(Boolean)` leaves only non-empty strings, each taken from the
      input. */
  lemma {:induction false} NonEmptySpec(xs: seq<string>)
    ensures forall i :: 0 <= i < |NonEmpty(xs)| ==> NonEmpty(xs)[i] != ""
    ensures forall x :: x in NonEmpty(xs) ==> x in xs
  {
    if xs != [] {
      NonEmptySpec(xs[1..]);
    }
  }

  lemma {:induction false} NonEmptyAllEmpty(xs: seq<string>)
    requires forall i :: 0 <= i < |xs| ==> xs[i] == ""
    ensures NonEmpty(xs) == []
  {
    if xs != [] {
      NonEmptyAllEmpty(xs[1..]);
    }
  }

  /** Nothing is dropped from a list without empty strings. */
  lemma {:induction false} NonEmptyKeeps(xs: seq<string>)
    requires forall i :: 0 <= i < |xs| ==> xs[i] != ""
    ensures NonEmpty(xs) == xs
  {
    if xs != [] {
      NonEmptyKeeps(xs[1..]);
      assert [xs[0]] + xs[1..] == xs;
    }
  }

  /** Splitting at a separator character splits the pieces on either side
      independently. */
  lemma {:induction false} SplitAppend(a: string, c: char, b: string, seps: set<char>)
    requires c in seps
    ensures Split(a + [c] + b, seps) == Split(a, seps) + Split(b, seps)
  {
    if a == [] {
      assert a + [c] + b == [c] + b;
      assert ([c] + b)[1..] == b;
    } else {
      assert (a + [c] + b)[1..] == a[1..] + [c] + b;
      SplitAppend(a[1..], c, b, seps);
    }
  }

  /** A string without separators is a single piece. */
  lemma {:induction false} SplitFree(s: string, seps: set<char>)
    requires Free(s, seps)
    ensures Split(s, seps) == [s]
  {
    if s != [] {
      SplitFree(s[1..], seps);
      assert [s[0]] + s[1..] == s;
    }
  }

  /** A string made only of separators splits into empty pieces only. */
  lemma {:induction false} SplitAllSeps(s: string, seps: set<char>)
    requires forall i :: 0 <= i < |s| ==> s[i] in seps
    ensures forall i :: 0 <= i < |Split(s, seps)| ==> Split(s, seps)[i] == ""
  {
    if s != [] {
      SplitAllSeps(s[1..], seps);
    }
  }

  /** Splitting a join of separator-free, non-empty pieces gives the pieces back. */
  lemma {:induction false} SplitJoin(xs: seq<string>, c: char, seps: set<char>)
    requires c in seps
    requires |xs| >= 1
    requires forall i :: 0 <= i < |xs| ==> Free(xs[i], seps)
    ensures Split(Join(xs, [c]), seps) == xs
  {
    if |xs| == 1 {
      SplitFree(xs[0], seps);
    } else {
      SplitJoin(xs[1..], c, seps);
      assert Join(xs, [c]) == xs[0] + [c] + Join(xs[1..], [c]);
      SplitAppend(xs[0], c, Join(xs[1..], [c]), seps);
      SplitFree(xs[0], seps);
      assert [xs[0]] + xs[1..] == xs;
    }
  }

  /** The characters JavaScript's `trim` and the `\s` class treat as white space. */
  const WhiteSpace: set<char> := {
    ' ', '\t', '\n', '\r', '\U{000B}', '\U{000C}', '\U{00A0}', '\U{1680}',
    '\U{2000}', '\U{2001}', '\U{2002}', '\U{2003}', '\U{2004}', '\U{2005}',
    '\U{2006}', '\U{2007}', '\U{2008}', '\U{2009}', '\U{200A}', '\U{2028}',
    '\U{2029}', '\U{202F}', '\U{205F}', '\U{3000}', '\U{FEFF}'
  }

  function TrimStart(s: string): (r: string)
    ensures r == [] || r[0] !in WhiteSpace
    ensures |r| <= |s|
  {
    if s != [] && s[0] in WhiteSpace then TrimStart(s[1..]) else s
  }

  function TrimEnd(s: string): (r: string)
    ensures r == [] || r[|r| - 1] !in WhiteSpace
    ensures |r| <= |s| && (r != [] ==> r[0] == s[0])
  {
    if s != [] && s[|s| - 1] in WhiteSpace then TrimEnd(s[..|s| - 1]) else s
  }

  /** `s.trim()`: the empty result means `s` was white space only. */
  function Trim(s: string): (r: string)
    ensures r != "" ==> r[0] !in WhiteSpace && r[|r| - 1] !in WhiteSpace
  {
    TrimEnd(TrimStart(s))
  }

  /** `TrimStart` keeps a suffix and drops only white space. */
  lemma {:induction false} TrimStartDrops(s: string)
    ensures TrimStart(s) == s[|s| - |TrimStart(s)|..]
    ensures forall i :: 0 <= i < |s| - |TrimStart(s)| ==> s[i] in WhiteSpace
  {
    if s != [] && s[0] in WhiteSpace {
      TrimStartDrops(s[1..]);
    }
  }

  /** `TrimEnd` keeps a prefix and drops only white space. */
  lemma {:induction false} TrimEndDrops(s: string)
    ensures TrimEnd(s) == s[..|TrimEnd(s)|]
    ensures forall i :: |TrimEnd(s)| <= i < |s| ==> s[i] in WhiteSpace
  {
    if s != [] && s[|s| - 1] in WhiteSpace {
      TrimEndDrops(s[..|s| - 1]);
    }
  }

  /** The trimmed text is empty exactly when the line is white space only. */
  lemma TrimBlank(s: string)
    ensures Trim(s) == "" <==> forall i :: 0 <= i < |s| ==> s[i] in WhiteSpace
  {
    var t := TrimStart(s);
    var r := TrimEnd(t);
    TrimStartDrops(s);
    TrimEndDrops(t);
    if r == "" {
      assert t == "";
    } else {
      assert r[0] == t[0] == s[|s| - |t|];
    }
  }

  /** A string already without white space at either end is its own trim. */
  lemma TrimNoop(s: string)
    requires s != [] && s[0] !in WhiteSpace && s[|s| - 1] !in WhiteSpace
    ensures Trim(s) == s
  {
  }

  /** The tokens of `s`: maximal runs of non-white-space characters, in order. */
  function Words(s: string): seq<string> {
    NonEmpty(Split(s, WhiteSpace))
  }

  /** Every token is non-empty and holds no white space. */
  lemma WordsAreTokens(s: string)
    ensures forall i :: 0 <= i < |Words(s)| ==> Words(s)[i] != "" && Free(Words(s)[i], WhiteSpace)
  {
    var pieces := Split(s, WhiteSpace);
    SplitPieces(s, WhiteSpace);
    NonEmptySpec(pieces);
    var r := NonEmpty(pieces);
    assert forall i :: 0 <= i < |r| ==> r[i] in pieces;
  }

  /** A non-blank line has at least one token (the command name). */
  lemma {:induction false} WordsOfNonBlank(s: string)
    requires exists i :: 0 <= i < |s| && s[i] !in WhiteSpace
    ensures |Words(s)| >= 1
  {
    var i :| 0 <= i < |s| && s[i] !in WhiteSpace;
    if s[0] in WhiteSpace {
      WordsOfNonBlank(s[1..]);
      assert s[1..][i - 1] == s[i];
    } else {
      var rest := Split(s[1..], WhiteSpace);
      assert Split(s, WhiteSpace)[0] == [s[0]] + rest[0];
    }
  }

  /** Two tokens separated by one space come back as exactly those tokens. */
  lemma WordsOfTwo(a: string, b: string)
    requires a != "" && b != "" && Free(a, WhiteSpace) && Free(b, WhiteSpace)
    ensures Words(a + " " + b) == [a, b]
  {
    SplitAppend(a, ' ', b, WhiteSpace);
    assert a + " " + b == a + [' '] + b;
    SplitFree(a, WhiteSpace);
    SplitFree(b, WhiteSpace);
    NonEmptyAppend([a], [b]);
  }

  /** A one-token line is that token. */
  lemma WordsOfOne(a: string)
    requires a != "" && Free(a, WhiteSpace)
    ensures Words(a) == [a]
  {
    SplitFree(a, WhiteSpace);
  }

  /** Words joined by single spaces split back into those words. */
  lemma WordsOfJoin(words: seq<string>)
    requires forall i :: 0 <= i < |words| ==> words[i] != "" && Free(words[i], WhiteSpace)
    ensures Words(Join(words, " ")) == words
  {
    if words == [] {
      assert Split("", WhiteSpace) == [""];
    } else {
      SplitJoin(words, ' ', WhiteSpace);
      NonEmptyKeeps(words);
    }
  }

  function Digit(d: nat): char
    requires d < 10
  {
    "0123456789"[d]
  }

  /** Decimal rendering of a natural number, as JavaScript's template
      interpolation `${n}` prints it. */
  function NatToString(n: nat): (r: string)
    ensures r != []
    ensures forall i :: 0 <= i < |r| ==> '0' <= r[i] <= '9'
    ensures |r| > 1 ==> r[0] != '0'
    decreases n
  {
    if n < 10 then [Digit(n)] else NatToString(n / 10) + [Digit(n % 10)]
  }

  /** Reads back a string of decimal digits. */
  function ParseDecimal(s: string): nat
    requires forall i :: 0 <= i < |s| ==> '0' <= s[i] <= '9'
  {
    if s == [] then 0
    else ParseDecimal(s[..|s| - 1]) * 10 + (s[|s| - 1] as int - '0' as int)
  }

  /** The decimal rendering reads back as the same number, so it is injective. */
  lemma {:induction false} NatToStringRoundTrip(n: nat)
    ensures ParseDecimal(NatToString(n)) == n
    decreases n
  {
    if n >= 10 {
      NatToStringRoundTrip(n / 10);
      var s := NatToString(n);
      assert s[..|s| - 1] == NatToString(n / 10);
    }
  }
}
