/** Byte strings as the server uses them: the `std::string` and stream
    operations that the parser calls, with what each of them finds.
 */
module Bytes {

  datatype Option<+T> = None | Some(value: T)

  const CRLF := "\r\n"

  /** `pat` stands in `s` at index `i`. */
  predicate OccursAt(s: string, pat: string, i: nat) {
    i + |pat| <= |s| && s[i..i + |pat|] == pat
  }

  /** `std::string::find(pat, from)`: the first occurrence at or after `from`. */
  function FindFrom(s: string, pat: string, from: nat): (r: Option<nat>)
    ensures r.Some? ==> from <= r.value && OccursAt(s, pat, r.value)
    ensures r.Some? ==> forall j: nat | from <= j < r.value :: !OccursAt(s, pat, j)
    ensures r.None? ==> forall j: nat | from <= j :: !OccursAt(s, pat, j)
    decreases |s| - from
  {
    if from + |pat| > |s| then None
    else if s[from..from + |pat|] == pat then Some(from)
    else FindFrom(s, pat, from + 1)
  }

  function Find(s: string, pat: string): (r: Option<nat>)
    ensures r.Some? ==> OccursAt(s, pat, r.value)
    ensures r.Some? ==> forall j: nat | j < r.value :: !OccursAt(s, pat, j)
    ensures r.None? ==> forall j: nat :: !OccursAt(s, pat, j)
  {
    FindFrom(s, pat, 0)
  }

  /** `std::string::find(c, from)` for one character. */
  function IndexFrom(s: string, c: char, from: nat): (r: Option<nat>)
    ensures r.Some? ==> from <= r.value < |s| && s[r.value] == c && c !in s[from..r.value]
    ensures r.None? && from <= |s| ==> c !in s[from..]
    decreases |s| - from
  {
    if from >= |s| then None
    else if s[from] == c then Some(from)
    else
      var r := IndexFrom(s, c, from + 1);
      assert s[from..] == [s[from]] + s[from + 1..];
      assert r.Some? ==> s[from..r.value] == [s[from]] + s[from + 1..r.value];
      r
  }

  function IndexOf(s: string, c: char): (r: Option<nat>)
    ensures r.Some? ==> r.value < |s| && s[r.value] == c && c !in s[..r.value]
    ensures r.None? ==> c !in s
  {
    var r := IndexFrom(s, c, 0);
    assert r.Some? ==> s[0..r.value] == s[..r.value];
    assert s[0..] == s;
    r
  }

  /** The first index is the only one with nothing before it. */
  lemma IndexFromIs(s: string, c: char, from: nat, i: nat)
    requires from <= i < |s| && s[i] == c
    requires forall k | from <= k < i :: s[k] != c
    ensures IndexFrom(s, c, from) == Some(i)
    decreases i - from
  {
    if from < i {
      IndexFromIs(s, c, from + 1, i);
    }
  }

  /** An occurrence is a fact about the bytes it covers, so later bytes never move it. */
  lemma OccursAtAppend(s: string, b: string, pat: string, i: nat)
    requires i + |pat| <= |s|
    ensures OccursAt(s + b, pat, i) <==> OccursAt(s, pat, i)
  {
    assert (s + b)[i..i + |pat|] == s[i..i + |pat|];
  }

  lemma FindAppend(s: string, b: string, pat: string)
    requires Find(s, pat).Some?
    ensures Find(s + b, pat) == Find(s, pat)
  {
    var i := Find(s, pat).value;
    OccursAtAppend(s, b, pat, i);
    forall j: nat | j < i ensures !OccursAt(s + b, pat, j) {
      OccursAtAppend(s, b, pat, j);
    }
  }

  /** The first occurrence is the only index with nothing before it. */
  lemma FindIs(s: string, pat: string, i: nat)
    requires OccursAt(s, pat, i)
    requires forall j: nat | j < i :: !OccursAt(s, pat, j)
    ensures Find(s, pat) == Some(i)
  {
  }

  lemma FindAtMost(s: string, pat: string, i: nat)
    requires OccursAt(s, pat, i)
    ensures Find(s, pat).Some? && Find(s, pat).value <= i
  {
  }

  /** A line that holds no line feed of its own ends at the first CRLF of what follows it. */
  lemma FindLineEnd(line: string, rest: string)
    requires '\n' !in line
    ensures Find(line + CRLF + rest, CRLF) == Some(|line|)
  {
    var s := line + CRLF + rest;
    assert s[|line|..|line| + 2] == CRLF;
    forall j: nat | j < |line| ensures !OccursAt(s, CRLF, j) {
      assert s[j + 1] == (if j + 1 < |line| then line[j + 1] else '\r');
      assert s[j + 1] != '\n';
      assert s[j..j + 2][1] == s[j + 1];
    }
    FindIs(s, CRLF, |line|);
  }

  // ---------------------------------------------------------------- white space

  /** C's `isspace` in the default locale. */
  predicate IsSpace(c: char) {
    c == ' ' || c == '\t' || c == '\n' || c == '\r' || c == '\U{0B}' || c == '\U{0C}'
  }

  predicate NoSpace(s: string) {
    forall i | 0 <= i < |s| :: !IsSpace(s[i])
  }

  function SkipSpaces(s: string): (r: string)
    ensures r == "" || !IsSpace(r[0])
    ensures |r| <= |s|
  {
    if s != "" && IsSpace(s[0]) then SkipSpaces(s[1..]) else s
  }

  /** Length of the run of non-space characters at the front of `s`. */
  function WordLen(s: string): (n: nat)
    ensures n <= |s| && NoSpace(s[..n])
    ensures n < |s| ==> IsSpace(s[n])
  {
    if s == "" || IsSpace(s[0]) then 0
    else
      var n := WordLen(s[1..]);
      assert s[..n + 1] == [s[0]] + s[1..][..n];
      n + 1
  }

  /** `stream >> word` on the unread text `s`: the word and the text left unread. */
  function ReadWord(s: string): (r: (string, string))
    ensures NoSpace(r.0)
  {
    var t := SkipSpaces(s);
    (t[..WordLen(t)], t[WordLen(t)..])
  }

  lemma WordLenOf(w: string, rest: string)
    requires NoSpace(w)
    requires rest == "" || IsSpace(rest[0])
    ensures WordLen(w + rest) == |w|
  {
    if w == "" {
      assert w + rest == rest;
    } else {
      assert (w + rest)[1..] == w[1..] + rest;
      WordLenOf(w[1..], rest);
    }
  }

  /** Reading a printed word gives it back and leaves what follows it. */
  lemma ReadWordOf(w: string, rest: string)
    requires w != "" && NoSpace(w)
    requires rest == "" || IsSpace(rest[0])
    ensures ReadWord(w + rest) == (w, rest)
    ensures ReadWord(" " + w + rest) == (w, rest)
  {
    assert (w + rest)[0] == w[0] && w[0] in w;
    WordLenOf(w, rest);
    assert (w + rest)[..|w|] == w && (w + rest)[|w|..] == rest;
    assert (" " + w + rest)[1..] == w + rest;
  }

  /** `removeSpaces` as a function on values. */
  function WithoutSpaces(s: string): (r: string)
    ensures NoSpace(r)
  {
    if s == "" then ""
    else if IsSpace(s[0]) then WithoutSpaces(s[1..])
    else [s[0]] + WithoutSpaces(s[1..])
  }

  lemma {:induction false} WithoutSpacesAppend(s: string, c: char)
    ensures WithoutSpaces(s + [c]) == WithoutSpaces(s) + (if IsSpace(c) then "" else [c])
  {
    if s == "" {
      assert s + [c] == [c];
      assert WithoutSpaces([c][1..]) == "";
    } else {
      assert (s + [c])[1..] == s[1..] + [c];
      WithoutSpacesAppend(s[1..], c);
    }
  }

  /** A name without white space is kept as it is. */
  lemma {:induction false} WithoutSpacesKeeps(s: string)
    requires NoSpace(s)
    ensures WithoutSpaces(s) == s
  {
    if s != "" {
      assert s[0] in s;
      WithoutSpacesKeeps(s[1..]);
    }
  }

  // ---------------------------------------------------------------- numbers

  predicate IsDigit(c: char) { '0' <= c <= '9' }

  function DigitRun(s: string): (n: nat)
    ensures n <= |s|
    ensures forall i | 0 <= i < n :: IsDigit(s[i])
  {
    if s == "" || !IsDigit(s[0]) then 0 else 1 + DigitRun(s[1..])
  }

  function Decimal(s: string): nat
    requires forall i | 0 <= i < |s| :: IsDigit(s[i])
  {
    if s == "" then 0
    else
      assert IsDigit(s[|s| - 1]);
      10 * Decimal(s[..|s| - 1]) + (s[|s| - 1] as int - '0' as int)
  }

  const LLONG_MAX: int := 0x7FFF_FFFF_FFFF_FFFF

  /** `std::stoll`: None stands for the exceptions it throws (no digits, or out of range). */
  function Stoll(s: string): Option<int> {
    var t := SkipSpaces(s);
    var signed := t != "" && (t[0] == '-' || t[0] == '+');
    var u := if signed then t[1..] else t;
    var n := DigitRun(u);
    var d: int := Decimal(u[..n]);
    var v := if signed && t[0] == '-' then -d else d;
    if n == 0 || !(-LLONG_MAX - 1 <= v <= LLONG_MAX) then None else Some(v)
  }

  /** `std::to_string` of a size. */
  function ToString(n: nat): (s: string)
    ensures s != "" && forall i | 0 <= i < |s| :: IsDigit(s[i])
  {
    var last := ['0' + (n % 10) as char];
    if n < 10 then last else ToString(n / 10) + last
  }

  lemma {:induction false} DecimalOfToString(n: nat)
    ensures Decimal(ToString(n)) == n
  {
    var s := ToString(n);
    if n < 10 {
      assert s[..|s| - 1] == "";
    } else {
      DecimalOfToString(n / 10);
      assert s[..|s| - 1] == ToString(n / 10);
    }
  }

  lemma {:induction false} DigitRunAll(s: string)
    requires forall i | 0 <= i < |s| :: IsDigit(s[i])
    ensures DigitRun(s) == |s|
  {
    if s != "" {
      DigitRunAll(s[1..]);
    }
  }

  lemma StollOfDigits(s: string)
    requires s != "" && forall i | 0 <= i < |s| :: IsDigit(s[i])
    ensures Stoll(s) == if Decimal(s) <= LLONG_MAX then Some(Decimal(s)) else None
  {
    assert IsDigit(s[0]) && !IsSpace(s[0]);
    assert SkipSpaces(s) == s;
    var signed := s[0] == '-' || s[0] == '+';
    assert !signed;
    assert DigitRun(s) == |s| by { DigitRunAll(s); }
    assert s[..|s|] == s;
    var d := Decimal(s);
    assert Decimal(s[..DigitRun(s)]) == d;
  }

  /** A printed size is read back exactly, unless it is past the range of `long long`. */
  lemma StollOfToString(n: nat)
    ensures Stoll(ToString(n)) == if n <= LLONG_MAX then Some(n) else None
  {
    StollOfDigits(ToString(n));
    DecimalOfToString(n);
  }

  lemma EmptyConcat(s: string)
    ensures s + "" == s && "" + s == s
  {
  }

  lemma Associative(a: string, b: string, c: string)
    ensures a + b + c == a + (b + c)
    ensures a + "" == a
  {
  }

  /** The concatenation of a list of chunks. */
  function Concat(chunks: seq<string>): string {
    if chunks == [] then "" else chunks[0] + Concat(chunks[1..])
  }
}
