/** The text handling that the SSTP backend's files rely on: lines, fields, trimming and decimal
    numbers, each with the printer it must undo. */
module SstpText {
  import opened Common

  type Text = string

  predicate Space(c: char) {
    c == ' ' || c == '\t' || c == '\n' || c == '\r'
  }

  /** One word: no white space anywhere. */
  predicate Word(s: Text) {
    forall i :: 0 <= i < |s| ==> !Space(s[i])
  }

  // ----- splitting -----

  /** strings.Split on one character. */
  function Split(s: Text, c: char): (r: seq<Text>)
    ensures |r| >= 1
  {
    if s == [] then [[]] else
    var r := Split(s[1..], c);
    if s[0] == c then [[]] + r else [[s[0]] + r[0]] + r[1..]
  }

  lemma {:induction false} SplitNone(x: Text, c: char)
    requires c !in x
    ensures Split(x, c) == [x]
  {
    if x != [] {
      SplitNone(x[1..], c);
      assert x == [x[0]] + x[1..];
    }
  }

  lemma {:induction false} SplitFirst(x: Text, c: char, y: Text)
    requires c !in x
    ensures Split(x + [c] + y, c) == [x] + Split(y, c)
  {
    var s := x + [c] + y;
    if x == [] {
      assert s[1..] == y;
    } else {
      assert s[1..] == x[1..] + [c] + y;
      SplitFirst(x[1..], c, y);
      assert x == [x[0]] + x[1..];
    }
  }

  /** Each line followed by a newline. */
  function Unlines(ls: seq<Text>): Text {
    if ls == [] then [] else ls[0] + ['\n'] + Unlines(ls[1..])
  }

  lemma {:induction false} LinesRoundTrip(ls: seq<Text>)
    requires forall i :: 0 <= i < |ls| ==> '\n' !in ls[i]
    ensures Split(Unlines(ls), '\n') == ls + [[]]
  {
    if ls != [] {
      SplitFirst(ls[0], '\n', Unlines(ls[1..]));
      LinesRoundTrip(ls[1..]);
    }
  }

  // ----- trimming -----

  function TrimLeft(s: Text): Text {
    if s != [] && Space(s[0]) then TrimLeft(s[1..]) else s
  }

  function TrimRight(s: Text): Text {
    if s != [] && Space(s[|s| - 1]) then TrimRight(s[..|s| - 1]) else s
  }

  /** strings.TrimSpace. */
  function Trim(s: Text): Text {
    TrimRight(TrimLeft(s))
  }

  predicate Trimmed(s: Text) {
    s != [] ==> !Space(s[0]) && !Space(s[|s| - 1])
  }

  /** Trimming leaves a trimmed text alone, and takes one space off the end of it. */
  lemma TrimIs(s: Text)
    requires Trimmed(s)
    ensures Trim(s) == s
  {
  }

  lemma TrimEnd(s: Text, c: char)
    requires Trimmed(s) && Space(c)
    ensures Trim(s + [c]) == s
  {
    var t := s + [c];
    assert t[..|s|] == s;
    if s == [] {
      assert t[1..] == [];
      assert TrimLeft(t) == TrimLeft(t[1..]);
    } else {
      assert TrimLeft(t) == t;
      assert TrimRight(t) == TrimRight(s);
    }
  }

  // ----- fields -----

  /** The length of the leading word. */
  function WordLen(s: Text): (n: nat)
    ensures n <= |s| && (s != [] && !Space(s[0]) ==> n > 0)
  {
    if s == [] || Space(s[0]) then 0 else 1 + WordLen(s[1..])
  }

  /** strings.Fields. */
  function Fields(s: Text): seq<Text>
    decreases |s|
  {
    if s == [] then [] else
    if Space(s[0]) then Fields(s[1..]) else
    var n := WordLen(s);
    [s[..n]] + Fields(s[n..])
  }

  lemma {:induction false} WordLenIs(w: Text, rest: Text)
    requires Word(w) && (rest == [] || Space(rest[0]))
    ensures WordLen(w + rest) == |w|
  {
    if w == [] {
      assert w + rest == rest;
    } else {
      assert (w + rest)[1..] == w[1..] + rest;
      WordLenIs(w[1..], rest);
    }
  }

  lemma FieldsWord(w: Text, rest: Text)
    requires Word(w) && w != [] && (rest == [] || Space(rest[0]))
    ensures Fields(w + rest) == [w] + Fields(rest)
  {
    WordLenIs(w, rest);
    assert (w + rest)[..|w|] == w && (w + rest)[|w|..] == rest;
  }

  lemma FieldsTab(w: Text, rest: Text)
    requires Word(w) && w != []
    ensures Fields(w + ['\t'] + rest) == [w] + Fields(rest)
  {
    assert w + ['\t'] + rest == w + (['\t'] + rest);
    FieldsWord(w, ['\t'] + rest);
    assert (['\t'] + rest)[1..] == rest;
  }

  /** A tab-separated line of four words reads back as those words. */
  lemma FourFields(a: Text, b: Text, c: Text, d: Text)
    requires Word(a) && Word(b) && Word(c) && Word(d) && a != [] && b != [] && c != [] && d != []
    ensures Fields(a + ['\t'] + (b + ['\t'] + (c + ['\t'] + d))) == [a, b, c, d]
  {
    FieldsTab(a, b + ['\t'] + (c + ['\t'] + d));
    FieldsTab(b, c + ['\t'] + d);
    FieldsTab(c, d);
    assert d + [] == d;
    FieldsWord(d, []);
  }

  lemma ThreeFields(a: Text, b: Text, c: Text)
    requires Word(a) && Word(b) && Word(c) && a != [] && b != [] && c != []
    ensures Fields(a + ['\t'] + (b + ['\t'] + c)) == [a, b, c]
  {
    FieldsTab(a, b + ['\t'] + c);
    FieldsTab(b, c);
    assert c + [] == c;
    FieldsWord(c, []);
  }

  // ----- decimal numbers -----

  function Digit(n: nat): char
    requires n < 10
  {
    '0' + n as char
  }

  function Dec(n: nat): (s: Text)
    ensures s != []
  {
    if n < 10 then [Digit(n)] else Dec(n / 10) + [Digit(n % 10)]
  }

  predicate IsDigit(c: char) {
    '0' <= c <= '9'
  }

  /** The value of a string of digits. */
  function ReadDigits(s: Text): Option<nat>
    decreases |s|
  {
    if s == [] then Some(0) else
    var c := s[|s| - 1];
    match ReadDigits(s[..|s| - 1])
    case None => None
    case Some(v) => if IsDigit(c) then Some(10 * v + (c - '0') as nat) else None
  }

  /** A non-negative decimal number; the empty text is not one. */
  function ReadNat(s: Text): Option<nat> {
    if s == [] then None else ReadDigits(s)
  }

  lemma DigitIs(n: nat)
    requires n < 10
    ensures IsDigit(Digit(n)) && (Digit(n) - '0') as nat == n && !Space(Digit(n))
    ensures Digit(n) != '.' && Digit(n) != '/'
  {
  }

  lemma {:induction false} DecRoundTrip(n: nat)
    ensures ReadNat(Dec(n)) == Some(n) && Word(Dec(n)) && '.' !in Dec(n) && '/' !in Dec(n)
  {
    if n < 10 {
      DigitIs(n);
      var s := Dec(n);
      assert s == [Digit(n)] && s[..|s| - 1] == [];
      assert ReadDigits(s[..|s| - 1]) == Some(0);
    } else {
      DecRoundTrip(n / 10);
      DigitIs(n % 10);
      assert Dec(n)[..|Dec(n)| - 1] == Dec(n / 10);
    }
  }

  /** strconv.Atoi: an optional sign, then digits. */
  function Atoi(s: Text): Option<int> {
    if s != [] && (s[0] == '-' || s[0] == '+') then
      match ReadNat(s[1..])
      case None => None
      case Some(v) => Some(if s[0] == '-' then -(v as int) else v as int)
    else
      match ReadNat(s)
      case None => None
      case Some(v) => Some(v)
  }

  lemma {:induction false} DecStartsWithDigit(n: nat)
    ensures IsDigit(Dec(n)[0])
  {
    if n < 10 { DigitIs(n); } else { DecStartsWithDigit(n / 10); }
  }

  lemma AtoiRoundTrip(n: nat)
    ensures Atoi(Trim(Dec(n) + ['\n'])) == Some(n)
  {
    DecRoundTrip(n);
    DecStartsWithDigit(n);
    TrimEnd(Dec(n), '\n');
  }
}
