/** Request text by its bytes: white space, words, header lines, numbers, file
    names, and what particular requests lead to. Nothing here is said in terms of
    the parser's own constants.
 */
module RequestText {
  import opened Bytes
  import opened Message
  import opened RequestMachine

  // ---------------------------------------------------------------- white space and words

  /** Blank, or one of tab, line feed, vertical tab, form feed, carriage return. */
  predicate BlankByte(c: char) {
    c as int == 32 || 9 <= c as int <= 13
  }

  predicate Blank(s: string) {
    forall i | 0 <= i < |s| :: BlankByte(s[i])
  }

  predicate Solid(s: string) {
    s != "" && forall i | 0 <= i < |s| :: !BlankByte(s[i])
  }

  lemma SpaceIsBlank(c: char)
    ensures IsSpace(c) <==> BlankByte(c)
  {
  }

  lemma SolidHasNoSpace(s: string)
    requires Solid(s)
    ensures NoSpace(s)
  {
    forall i | 0 <= i < |s| ensures !IsSpace(s[i]) {
      SpaceIsBlank(s[i]);
    }
  }

  lemma {:induction false} SkipBlank(lead: string, rest: string)
    requires Blank(lead)
    ensures SkipSpaces(lead + rest) == SkipSpaces(rest)
  {
    if lead == "" {
      assert lead + rest == rest;
    } else {
      SpaceIsBlank(lead[0]);
      assert (lead + rest)[1..] == lead[1..] + rest;
      SkipBlank(lead[1..], rest);
    }
  }

  /** A word ends at the end of the text or at a blank byte. */
  predicate EndsWord(rest: string) {
    rest == "" || BlankByte(rest[0])
  }

  lemma WordBehind(lead: string, w: string, rest: string)
    requires Blank(lead) && Solid(w) && EndsWord(rest)
    ensures ReadWord(lead + (w + rest)) == (w, rest)
  {
    SkipBlank(lead, w + rest);
    SolidHasNoSpace(w);
    if rest != "" {
      SpaceIsBlank(rest[0]);
    }
    ReadWordOf(w, rest);
    hide SkipSpaces, WordLen;
  }

  lemma NoWord(lead: string)
    requires Blank(lead)
    ensures ReadWord(lead) == ("", "")
  {
    SkipBlank(lead, "");
    EmptyConcat(lead);
  }

  /** A request line of three words: any blanks around and between them. */
  lemma LineOfThree(g0: string, m: string, g1: string, u: string, g2: string, v: string, rest: string)
    requires Blank(g0) && Blank(g1) && Blank(g2) && g1 != "" && g2 != ""
    requires Solid(m) && Solid(u) && Solid(v) && EndsWord(rest)
    ensures RequestLine(g0 + (m + (g1 + (u + (g2 + (v + rest)))))) == (m, u, v)
  {
    hide ReadWord;
    WordBehind(g0, m, g1 + (u + (g2 + (v + rest))));
    WordBehind(g1, u, g2 + (v + rest));
    WordBehind(g2, v, rest);
  }

  /** Of two words: the version reads as empty. */
  lemma LineOfTwo(g0: string, m: string, g1: string, u: string, g2: string)
    requires Blank(g0) && Blank(g1) && Blank(g2) && g1 != "" && Solid(m) && Solid(u)
    ensures RequestLine(g0 + (m + (g1 + (u + g2)))) == (m, u, "")
  {
    hide ReadWord;
    WordBehind(g0, m, g1 + (u + g2));
    WordBehind(g1, u, g2);
    NoWord(g2);
  }

  /** Of one word, and of none. */
  lemma LineOfOne(g0: string, m: string, g1: string)
    requires Blank(g0) && Blank(g1) && Solid(m)
    ensures RequestLine(g0 + (m + g1)) == (m, "", "") && RequestLine(g0) == ("", "", "")
  {
    hide ReadWord;
    WordBehind(g0, m, g1);
    NoWord(g1);
    NoWord(g0);
    NoWord("");
  }

  // ---------------------------------------------------------------- header lines

  /** A text without one trailing carriage return. */
  function Chomped(text: string): string {
    if text != "" && text[|text| - 1] == '\r' then text[..|text| - 1] else text
  }

  /** Key and value of a header line, whatever its separator: the key is the first
      word without its last byte, the value what stands behind the one byte that
      follows the word, up to the first line feed. */
  lemma LineOfHeader(lead: string, word: string, blank: char, text: string, more: string)
    requires Blank(lead) && Solid(word) && BlankByte(blank) && '\n' !in text
    ensures HeaderFields(lead + (word + ([blank] + (text + ("\n" + more)))))
      == Some((word[..|word| - 1], Chomped(text)))
    ensures HeaderFields(lead + (word + ([blank] + text))) == Some((word[..|word| - 1], Chomped(text)))
    ensures HeaderFields(lead + word) == Some((word[..|word| - 1], "")) && HeaderFields(lead).None?
  {
    hide ReadWord;
    var rest := text + ("\n" + more);
    WordBehind(lead, word, [blank] + rest);
    assert ([blank] + rest)[1..] == rest;
    FirstLineText(text, more);
    WordBehind(lead, word, [blank] + text);
    assert ([blank] + text)[1..] == text;
    WordBehind(lead, word, "");
    EmptyConcat(word);
    NoWord(lead);
  }

  lemma FirstLineText(text: string, more: string)
    requires '\n' !in text
    ensures FirstLine(text + ("\n" + more)) == Chomped(text) && FirstLine(text) == Chomped(text)
  {
    var s := text + ("\n" + more);
    forall k | 0 <= k < |text| ensures s[k] != '\n' {
      assert s[k] == text[k];
    }
    IndexFromIs(s, '\n', 0, |text|);
    assert s[..|text|] == text;
  }

  /** A Content-Type value by positions. With the first semicolon at `i`: the type is
      what stands before it; the name of the parameter begins two bytes behind it,
      whatever the byte between is, and ends at the first equals sign behind the
      semicolon; the parameter is what stands behind that sign. If the sign follows
      the semicolon at once, the name runs to the end; without a sign the whole value
      is the parameter. A semicolon at the very end throws. */
  lemma TypeByPosition(value: string, i: nat)
    requires i < |value| && value[i] == ';' && forall k | 0 <= k < i :: value[k] != ';'
    ensures i + 1 == |value| ==> Effect("Content-Type", value) == Malformed
    ensures forall e | i + 2 <= e < |value| && value[e] == '=' && (forall k | i <= k < e :: value[k] != '=') ::
      Effect("Content-Type", value) == Assign([("Content-Type", value[..i]), (value[i + 2..e], value[e + 1..])])
    ensures i + 1 < |value| && value[i + 1] == '=' ==>
      Effect("Content-Type", value) == Assign([("Content-Type", value[..i]), (value[i + 2..], value[i + 2..])])
    ensures i + 1 < |value| && (forall k | i <= k < |value| :: value[k] != '=') ==>
      Effect("Content-Type", value) == Assign([("Content-Type", value[..i]), (value[i + 2..], value)])
  {
    hide Effect, ContentTypeEffect;
    TypeIsType(value);
    TypeWithoutSign(value, i);
    forall e | i + 2 <= e < |value| && value[e] == '=' && (forall k | i <= k < e :: value[k] != '=')
      ensures ContentTypeEffect(value) == Assign([("Content-Type", value[..i]), (value[i + 2..e], value[e + 1..])])
    {
      TypeWithSign(value, i, e);
    }
  }

  lemma TypeWithSign(value: string, i: nat, e: nat)
    requires i < |value| && value[i] == ';' && forall k | 0 <= k < i :: value[k] != ';'
    requires i + 2 <= e < |value| && value[e] == '=' && forall k | i <= k < e :: value[k] != '='
    ensures ContentTypeEffect(value) == Assign([("Content-Type", value[..i]), (value[i + 2..e], value[e + 1..])])
  {
    IndexFromIs(value, ';', 0, i);
    IndexFromIs(value, '=', i, e);
    hide IndexFrom;
  }

  lemma TypeWithoutSign(value: string, i: nat)
    requires i < |value| && value[i] == ';' && forall k | 0 <= k < i :: value[k] != ';'
    ensures i + 1 == |value| ==> ContentTypeEffect(value) == Malformed
    ensures i + 1 < |value| && value[i + 1] == '=' ==>
      ContentTypeEffect(value) == Assign([("Content-Type", value[..i]), (value[i + 2..], value[i + 2..])])
    ensures i + 1 < |value| && (forall k | i <= k < |value| :: value[k] != '=') ==>
      ContentTypeEffect(value) == Assign([("Content-Type", value[..i]), (value[i + 2..], value)])
  {
    IndexFromIs(value, ';', 0, i);
    if i + 1 < |value| && value[i + 1] == '=' {
      IndexFromIs(value, '=', i, i + 1);
    }
    if forall k | i <= k < |value| :: value[k] != '=' {
      NoIndex(value, '=', i);
    }
    hide IndexFrom;
  }

  lemma NoIndex(s: string, c: char, from: nat)
    requires from <= |s| && forall k | from <= k < |s| :: s[k] != c
    ensures IndexFrom(s, c, from).None?
  {
  }

  lemma TypeIsType(value: string)
    ensures Effect("Content-Type", value) == ContentTypeEffect(value)
  {
    assert |"Content-Type"| != |CONTENT_LENGTH|;
  }

  /** A Content-Type without a semicolon, and any other key but Content-Length, is
      stored as it is. */
  lemma StoredAsIs(key: string, value: string)
    ensures key == "Content-Type" && ';' !in value ==> Effect(key, value) == Assign([("Content-Type", value)])
    ensures key != "Content-Type" && key != "Content-Length" ==> Effect(key, value) == Assign([(key, value)])
  {
    if key == "Content-Type" && ';' !in value {
      TypeIsType(value);
      NoIndex(value, ';', 0);
    }
  }

  // ---------------------------------------------------------------- numbers

  predicate Digits(s: string) {
    s != "" && forall i | 0 <= i < |s| :: 48 <= s[i] as int <= 57
  }

  /** One more digit counts ten times what stands before it, plus itself. */
  lemma DecimalStep(s: string, c: char)
    requires (forall i | 0 <= i < |s| :: IsDigit(s[i])) && IsDigit(c)
    ensures Decimal(s + [c]) == 10 * Decimal(s) + (c as int - 48) && Decimal("") == 0
  {
    assert (s + [c])[..|s|] == s;
  }

  lemma {:induction false} DigitRunOf(digits: string, rest: string)
    requires (forall i | 0 <= i < |digits| :: IsDigit(digits[i])) && (rest == "" || !IsDigit(rest[0]))
    ensures DigitRun(digits + rest) == |digits|
  {
    if digits == "" {
      assert digits + rest == rest;
    } else {
      assert (digits + rest)[1..] == digits[1..] + rest;
      DigitRunOf(digits[1..], rest);
    }
  }

  /** `stoll` by bytes: blanks, at most one sign, digits, and anything else behind. */
  lemma NumberText(lead: string, sign: string, digits: string, rest: string)
    requires Blank(lead) && (sign == "" || sign == "+" || sign == "-") && Digits(digits)
    requires rest == "" || !(48 <= rest[0] as int <= 57)
    ensures forall i | 0 <= i < |digits| :: IsDigit(digits[i])
    ensures var n := if sign == "-" then -(Decimal(digits) as int) else Decimal(digits);
      Stoll(lead + (sign + (digits + rest)))
        == if -0x8000_0000_0000_0000 <= n <= 0x7FFF_FFFF_FFFF_FFFF then Some(n) else None
  {
    hide Stoll, Decimal, SkipSpaces;
    var t := sign + (digits + rest);
    SkipBlank(lead, t);
    SolidStays(t);
    NumberBehind(lead + t, sign, digits, rest);
  }

  lemma SolidStays(t: string)
    requires t != "" && !BlankByte(t[0])
    ensures SkipSpaces(t) == t
  {
    SpaceIsBlank(t[0]);
  }

  lemma NumberBehind(s: string, sign: string, digits: string, rest: string)
    requires SkipSpaces(s) == sign + (digits + rest) && (sign == "" || sign == "+" || sign == "-")
    requires Digits(digits) && (rest == "" || !(48 <= rest[0] as int <= 57))
    ensures forall i | 0 <= i < |digits| :: IsDigit(digits[i])
    ensures var n := if sign == "-" then -(Decimal(digits) as int) else Decimal(digits);
      Stoll(s) == if -0x8000_0000_0000_0000 <= n <= 0x7FFF_FFFF_FFFF_FFFF then Some(n) else None
  {
    hide Decimal, SkipSpaces, DigitRun;
    var t, u := SkipSpaces(s), digits + rest;
    assert u[0] == digits[0];
    assert sign != "" ==> t[1..] == u && t[0] == sign[0];
    assert sign == "" ==> t == u;
    DigitRunOf(digits, rest);
    assert u[..|digits|] == digits;
  }

  /** A printed size has no leading zero. */
  lemma {:induction false} SizeText(n: nat)
    ensures Digits(ToString(n)) && (ToString(n)[0] == '0' <==> n == 0) && (n == 0 ==> ToString(n) == "0")
  {
    if n >= 10 {
      SizeText(n / 10);
    }
  }

  // ---------------------------------------------------------------- file names

  /** The name on a part header line by positions: it begins ten bytes behind the
      start of `filename` and ends at the next quote; it is appended to what was read
      before, and white space is dropped from the whole. */
  lemma NameByPosition(soFar: string, line: string, i: nat, q: nat)
    requires Find(line, "filename") == Some(i)
    requires i + 10 <= q < |line| && line[q] == '\"' && forall k | i + 10 <= k < q :: line[k] != '\"'
    ensures LineFileName(soFar, line) == Some(WithoutSpaces(soFar + line[i + 10..q]))
  {
    var rest := line[i + 10..];
    forall k | 0 <= k < q - (i + 10) ensures rest[k] != '\"' {
      assert rest[k] == line[i + 10 + k];
    }
    IndexFromIs(rest, '\"', 0, q - (i + 10));
    assert rest[..q - (i + 10)] == line[i + 10..q];
  }

  lemma NoName(soFar: string, line: string)
    requires Find(line, "filename").None?
    ensures LineFileName(soFar, line) == Some(soFar)
  {
  }

  /** Dropping white space: blanks go, everything else stays. */
  lemma {:induction false} SpacesDropped(a: string, b: string)
    ensures Blank(a) ==> WithoutSpaces(a + b) == WithoutSpaces(b)
    ensures Solid(a) ==> WithoutSpaces(a + b) == a + WithoutSpaces(b)
  {
    if a == "" {
      assert a + b == b;
    } else {
      SpaceIsBlank(a[0]);
      assert (a + b)[1..] == a[1..] + b;
      SpacesDropped(a[1..], b);
      if |a| == 1 {
        assert a[1..] == "" && a == [a[0]];
        EmptyConcat(b);
        assert "" + b == b;
      } else if Solid(a) {
        assert a == [a[0]] + a[1..];
        Associative([a[0]], a[1..], WithoutSpaces(b));
      }
    }
  }
}
