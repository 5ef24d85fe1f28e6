/** The string functions of Go's `strings` that the wire format relies on. Bytes are characters, and
    white space is that of ASCII. */
module Text {

  predicate Space(c: char) {
    c == ' ' || c == '\t' || c == '\n' || c == '\U{0B}' || c == '\U{0C}' || c == '\r'
  }

  /** No white space at either end, and a single line. */
  predicate Tidy(s: string) {
    s != "" && !Space(s[0]) && !Space(s[|s| - 1]) && '\n' !in s
  }

  predicate NoSpace(s: string) {
    forall c | c in s :: !Space(c)
  }

  /** The index of the first `c`, or the length. */
  function Find(s: string, c: char): (i: nat)
    ensures i <= |s| && (i < |s| ==> s[i] == c)
  {
    if s == "" || s[0] == c then 0 else 1 + Find(s[1..], c)
  }

  lemma {:induction false} FindAt(x: string, c: char, tail: string)
    requires c !in x
    ensures Find(x + [c] + tail, c) == |x|
  {
    if x != "" {
      assert (x + [c] + tail)[1..] == x[1..] + [c] + tail;
      FindAt(x[1..], c, tail);
    }
  }

  /** The first `c` is where `Find` says, if there is one. */
  lemma {:induction false} FindFirst(s: string, c: char)
    ensures c !in s[..Find(s, c)] && (c in s ==> Find(s, c) < |s|)
  {
    if s != "" && s[0] != c {
      FindFirst(s[1..], c);
      assert s[..Find(s, c)] == [s[0]] + s[1..][..Find(s[1..], c)];
    }
  }

  /** A line loses one carriage return at its end. */
  function Chomp(s: string): string {
    if s != "" && s[|s| - 1] == '\r' then s[..|s| - 1] else s
  }

  /** One carriage return, not more, and only at the end. */
  lemma ChompSpec(s: string)
    ensures Chomp(s + "\r") == s
    ensures s == "" || s[|s| - 1] != '\r' ==> Chomp(s) == s
  {
    assert (s + "\r")[..|s|] == s;
  }

  function TrimRight(s: string): string {
    if s != "" && Space(s[|s| - 1]) then TrimRight(s[..|s| - 1]) else s
  }

  function TrimLeft(s: string): string {
    if s != "" && Space(s[0]) then TrimLeft(s[1..]) else s
  }

  function Trim(s: string): string {
    TrimLeft(TrimRight(s))
  }

  /** What follows a prefix of a line is trimmed alike with and without the carriage return. */
  lemma TrimAfter(prefix: string, s: string)
    requires prefix != "" && prefix[|prefix| - 1] != '\r'
    ensures prefix <= Chomp(prefix + s)
    ensures Trim(Chomp(prefix + s)[|prefix|..]) == Trim(s)
  {
    if s == "" {
      assert prefix + s == prefix;
    } else {
      assert Chomp(prefix + s)[|prefix|..] == Chomp(s);
    }
  }

  // Trimming drops nothing but white space

  predicate AllSpace(s: string) {
    forall c | c in s :: Space(c)
  }

  /** How many characters are not white space. */
  function Ink(s: string): nat {
    if s == "" then 0 else (if Space(s[0]) then 0 else 1) + Ink(s[1..])
  }

  lemma {:induction false} InkOfBoth(a: string, b: string)
    ensures Ink(a + b) == Ink(a) + Ink(b)
  {
    if a == "" {
      assert a + b == b;
    } else {
      InkOfBoth(a[1..], b);
      assert (a + b)[1..] == a[1..] + b;
    }
  }

  lemma {:induction false} NoInk(s: string)
    ensures Ink(s) == 0 ==> AllSpace(s)
  {
    if s != "" {
      NoInk(s[1..]);
      assert s == [s[0]] + s[1..];
    }
  }

  lemma {:induction false} InkOfTrimRight(s: string)
    ensures Ink(TrimRight(s)) == Ink(s)
  {
    if s != "" && Space(s[|s| - 1]) {
      var k := |s| - 1;
      InkOfTrimRight(s[..k]);
      InkOfBoth(s[..k], s[k..]);
      assert s[..k] + s[k..] == s;
    }
  }

  lemma {:induction false} InkOfTrimLeft(s: string)
    ensures Ink(TrimLeft(s)) == Ink(s)
  {
    if s != "" && Space(s[0]) { InkOfTrimLeft(s[1..]); }
  }

  const WHITE_SPACE := [' ', '\t', '\n', '\U{0B}', '\U{0C}', '\r']

  /** Trimming takes white space off both ends, all of it and nothing else. */
  lemma TrimSpec(s: string) returns (i: nat, j: nat)
    ensures i <= j <= |s| && Trim(s) == s[i..j]
    ensures (forall k | 0 <= k < i || j <= k < |s| :: s[k] in WHITE_SPACE)
    ensures i < j ==> s[i] !in WHITE_SPACE && s[j - 1] !in WHITE_SPACE
  {
    j := TrimRightSpec(s);
    i := TrimLeftSpec(s[..j]);
  }

  lemma {:induction false} TrimRightSpec(s: string) returns (j: nat)
    ensures j <= |s| && TrimRight(s) == s[..j]
    ensures (forall k | j <= k < |s| :: s[k] in WHITE_SPACE) && (j > 0 ==> s[j - 1] !in WHITE_SPACE)
  {
    if s != "" && Space(s[|s| - 1]) {
      var n := |s| - 1;
      j := TrimRightSpec(s[..n]);
      assert s[..n][..j] == s[..j];
    } else {
      j := |s|;
      assert s[..j] == s;
    }
  }

  lemma {:induction false} TrimLeftSpec(s: string) returns (i: nat)
    ensures i <= |s| && TrimLeft(s) == s[i..]
    ensures (forall k | 0 <= k < i :: s[k] in WHITE_SPACE) && (i < |s| ==> s[i] !in WHITE_SPACE)
  {
    if s != "" && Space(s[0]) {
      var n := TrimLeftSpec(s[1..]);
      i := n + 1;
      forall k | 0 <= k < i ensures s[k] in WHITE_SPACE {
        if k > 0 { assert s[1..][k - 1] == s[k]; }
      }
      assert s[1..][n..] == s[i..];
    } else {
      i := 0;
    }
  }

  /** When a text and its first line are trimmed alike, the rest of the text is white space. */
  lemma TrimmedToFirstLine(s: string)
    requires '\n' in s
    ensures var i := Find(s, '\n'); i < |s| && (Trim(s[..i]) == Trim(s) ==> AllSpace(s[i + 1..]))
  {
    FindFirst(s, '\n');
    var i := Find(s, '\n');
    if Trim(s[..i]) == Trim(s) {
      InkOfTrim(s);
      InkOfTrim(s[..i]);
      InkOfBoth(s[..i], s[i..]);
      assert s == s[..i] + s[i..] && s[i..][1..] == s[i + 1..];
      NoInk(s[i + 1..]);
    }
  }

  lemma InkOfTrim(s: string)
    ensures Ink(Trim(s)) == Ink(s)
  {
    InkOfTrimRight(s);
    InkOfTrimLeft(TrimRight(s));
  }

  lemma TrimTidy(s: string)
    requires Tidy(s)
    ensures Trim(s) == s
  {
  }

  function Word(s: string): (k: nat)
    ensures k <= |s| && (s != "" && !Space(s[0]) ==> k > 0)
  {
    if s == "" || Space(s[0]) then 0 else 1 + Word(s[1..])
  }

  /** The maximal runs of characters that are not white space. */
  function Fields(s: string): seq<string>
    decreases |s|
  {
    if s == "" then []
    else if Space(s[0]) then Fields(s[1..])
    else [s[..Word(s)]] + Fields(s[Word(s)..])
  }

  lemma {:induction false} WordNoSpace(s: string)
    ensures NoSpace(s[..Word(s)])
  {
    if s != "" && !Space(s[0]) {
      WordNoSpace(s[1..]);
      assert s[..Word(s)] == [s[0]] + s[1..][..Word(s[1..])];
    }
  }

  /** Fields are words. */
  lemma {:induction false} FieldsAreWords(s: string)
    ensures forall w | w in Fields(s) :: w != "" && NoSpace(w)
    decreases |s|
  {
    if s != "" {
      if Space(s[0]) {
        FieldsAreWords(s[1..]);
      } else {
        WordNoSpace(s);
        FieldsAreWords(s[Word(s)..]);
      }
    }
  }

  lemma {:induction false} WordOf(x: string, tail: string)
    requires NoSpace(x) && (tail == "" || Space(tail[0]))
    ensures Word(x + tail) == |x|
  {
    if x == "" {
      assert x + tail == tail;
    } else {
      assert (x + tail)[1..] == x[1..] + tail;
      WordOf(x[1..], tail);
    }
  }

  lemma FieldsOfWord(x: string)
    requires x != "" && NoSpace(x)
    ensures Fields(x) == [x]
  {
    WordOf(x, "");
    assert x + "" == x;
    assert x[..|x|] == x && x[|x|..] == "";
  }

  lemma FieldsOfTwo(x: string, y: string)
    requires x != "" && y != "" && NoSpace(x) && NoSpace(y)
    ensures Fields(x + " " + y) == [x, y]
  {
    var s := x + (" " + y);
    assert s == x + " " + y;
    WordOf(x, " " + y);
    assert s[0] == x[0] && x[0] in x;
    assert s[..|x|] == x && s[|x|..] == " " + y && (" " + y)[1..] == y;
    FieldsOfWord(y);
    assert Fields(" " + y) == [y];
  }

  /** The parts around the first space, if there is one. */
  function Cut(s: string): (string, string, bool) {
    var i := Find(s, ' ');
    if i < |s| then (s[..i], s[i + 1..], true) else (s, "", false)
  }

  /** The part before the first space has none, and together the parts are as long as the text. */
  lemma CutParts(s: string)
    ensures var (x, y, ok) := Cut(s);
      ' ' !in x && (ok ==> s == x + " " + y)
  {
    FindFirst(s, ' ');
  }

  lemma CutAt(x: string, y: string)
    requires ' ' !in x
    ensures Cut(x + " " + y) == (x, y, true)
  {
    FindAt(x, ' ', y);
    assert [' '] == " ";
    assert (x + " " + y)[..|x|] == x && (x + " " + y)[|x| + 1..] == y;
  }
}
