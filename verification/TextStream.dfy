/** Reading text as an input stream does: words, numbers and lines. */
module TextStream {
  import opened Decimal

  predicate IsSpace(c: char) {
    c == ' ' || c == '\n' || c == '\t' || c == '\r' || c == 11 as char || c == 12 as char
  }

  function SkipSpace(s: string): (r: string)
    ensures |r| <= |s| && (r != "" ==> !IsSpace(r[0]))
  {
    if s == "" || !IsSpace(s[0]) then s else SkipSpace(s[1..])
  }

  /** The length of the word at the front. */
  function WordLen(s: string): (n: nat)
    ensures n <= |s|
  {
    if s == "" || IsSpace(s[0]) then 0 else 1 + WordLen(s[1..])
  }

  function LineLen(s: string): (n: nat)
    ensures n <= |s|
  {
    if s == "" || s[0] == '\n' then 0 else 1 + LineLen(s[1..])
  }

  function Drop(s: string, n: nat): (r: string)
    ensures |r| <= |s|
  {
    if n <= |s| then s[n..] else ""
  }

  datatype Read<T> = Read(val: T, rest: string)

  /** `>> string` */
  function GetWord(s: string): (r: Read<string>)
    ensures |r.rest| <= |s| && (r.val != "" ==> |r.rest| < |s|)
  {
    var t := SkipSpace(s);
    Read(t[..WordLen(t)], t[WordLen(t)..])
  }

  const UINT_MAX: nat := 0xffff_ffff

  predicate IsSign(c: char) {
    c == '+' || c == '-'
  }

  /**
   * `>> unsigned` into a variable: at the end of the text it keeps its value, without digits it
   * becomes zero, and a number that is too large becomes the largest. Each failure leaves a stream
   * on which nothing more can be read, just as if the text had ended. A minus sign is taken modulo 2^32.
   */
  function TakeNumber(s: string, was: nat): (r: Read<nat>)
    ensures |r.rest| <= |s|
  {
    var t := SkipSpace(s);
    if t == "" then Read(was, "")
    else
      var d := if IsSign(t[0]) then t[1..] else t;
      if Span(d) == 0 then Read(0, "")
      else if ValueOf(d[..Span(d)]) > UINT_MAX then Read(UINT_MAX, "")
      else Read(if t[0] == '-' then Negated(ValueOf(d[..Span(d)])) else ValueOf(d[..Span(d)]), d[Span(d)..])
  }

  function Negated(n: nat): nat
    requires n <= UINT_MAX
  {
    if n == 0 then 0 else UINT_MAX + 1 - n
  }

  /** `>> string` into a variable, which keeps its value at the end of the text. */
  function TakeWord(s: string, was: string): (r: Read<string>)
    ensures |r.rest| <= |s|
  {
    var w := GetWord(s);
    if w.val == "" then Read(was, "") else w
  }

  /** `get` and `getline` */
  function GetRestOfLine(s: string): (r: Read<string>)
    ensures |r.rest| <= |s|
  {
    var t := Drop(s, 1);
    Read(t[..LineLen(t)], Drop(t, LineLen(t) + 1))
  }

  predicate NoSpace(s: string) {
    forall i :: 0 <= i < |s| ==> !IsSpace(s[i])
  }

  predicate OneLine(s: string) {
    '\n' !in s
  }

  lemma {:induction false} WordThen(w: string, rest: string)
    requires NoSpace(w) && (rest != "" ==> IsSpace(rest[0]))
    ensures WordLen(w + rest) == |w|
    decreases |w|
  {
    if w == "" {
      assert w + rest == rest;
    } else {
      WordThen(w[1..], rest);
      assert (w + rest)[1..] == w[1..] + rest;
    }
  }

  lemma {:induction false} LineThen(v: string, tail: string)
    requires OneLine(v)
    ensures LineLen(v + ("\n" + tail)) == |v|
    decreases |v|
  {
    var rest := "\n" + tail;
    if v == "" {
      assert v + rest == rest;
    } else {
      LineThen(v[1..], tail);
      assert (v + rest)[1..] == v[1..] + rest;
    }
  }

  lemma ReadWord(w: string, rest: string)
    requires NoSpace(w) && w != "" && (rest != "" ==> IsSpace(rest[0]))
    ensures GetWord(w + rest) == Read(w, rest) && GetWord(" " + (w + rest)) == Read(w, rest)
  {
    WordThen(w, rest);
    assert (w + rest)[0] == w[0];
    assert (" " + (w + rest))[1..] == w + rest;
    assert SkipSpace(" " + (w + rest)) == SkipSpace(w + rest) == w + rest;
    assert (w + rest)[..|w|] == w && (w + rest)[|w|..] == rest;
  }

  /** A word ends at a blank, of which there are six, and at nothing else. */
  lemma WordEndsIff(w: string, c: char, rest: string)
    requires NoSpace(w) && w != ""
    ensures GetWord(w + ([c] + rest)).val == w <==> c as int == 32 || 9 <= c as int <= 13
  {
    var s := w + ([c] + rest);
    assert s[0] == w[0];
    if IsSpace(c) {
      ReadWord(w, [c] + rest);
    } else {
      assert s == (w + [c]) + rest;
      WordAtLeast(w + [c], rest);
      assert GetWord(s).val[|w|] == c;
    }
  }

  lemma {:induction false} WordAtLeast(w: string, rest: string)
    requires NoSpace(w)
    ensures WordLen(w + rest) >= |w|
    decreases |w|
  {
    if w != "" {
      WordAtLeast(w[1..], rest);
      assert (w + rest)[1..] == w[1..] + rest;
    }
  }

  lemma SkipOne(t: string)
    requires t != "" ==> !IsSpace(t[0])
    ensures SkipSpace(" " + t) == t
  {
    assert (" " + t)[1..] == t;
  }

  lemma ReadNumber(n: nat, rest: string, was: nat)
    requires n <= UINT_MAX && (rest != "" ==> IsSpace(rest[0]))
    ensures TakeNumber(" " + (Digits(n) + rest), was) == Read(n, rest)
  {
    var t := Digits(n) + rest;
    assert t[0] == Digits(n)[0];
    SkipOne(t);
    SpanOf(Digits(n), rest);
    ValueOfDigits(n);
    assert t[..|Digits(n)|] == Digits(n) && t[|Digits(n)|..] == rest;
  }

  lemma DigitsAhead(n: nat, rest: string)
    requires rest != "" ==> IsSpace(rest[0])
    ensures var t := Digits(n) + rest;
            && t != "" && IsDigit(t[0]) && Span(t) == |Digits(n)|
            && ValueOf(t[..Span(t)]) == n && t[Span(t)..] == rest
  {
    var t := Digits(n) + rest;
    assert t[0] == Digits(n)[0];
    SpanOf(Digits(n), rest);
    ValueOfDigits(n);
    assert t[..|Digits(n)|] == Digits(n) && t[|Digits(n)|..] == rest;
  }

  /** What the writers never print: a sign, and a number that is too large. */
  lemma ReadSigned(sign: char, n: nat, rest: string, was: nat)
    requires IsSign(sign) && n <= UINT_MAX && (rest != "" ==> IsSpace(rest[0]))
    ensures TakeNumber([sign] + (Digits(n) + rest), was)
         == Read(if sign == '-' then (0x1_0000_0000 - n) % 0x1_0000_0000 else n, rest)
  {
    var t := Digits(n) + rest;
    DigitsAhead(n, rest);
    assert ([sign] + t)[0] == sign && ([sign] + t)[1..] == t;
  }

  lemma ReadTooLarge(n: nat, rest: string, was: nat)
    requires n > UINT_MAX && (rest != "" ==> IsSpace(rest[0]))
    ensures TakeNumber(Digits(n) + rest, was) == Read(UINT_MAX, "")
  {
    DigitsAhead(n, rest);
  }

  /** Text without digits gives zero, and no text leaves the variable alone. */
  lemma ReadNoNumber(c: char, rest: string, was: nat)
    requires !IsSpace(c) && !IsDigit(c) && !IsSign(c)
    ensures TakeNumber([c] + rest, was) == Read(0, "") && TakeNumber("", was) == Read(was, "")
  {
    assert ([c] + rest)[0] == c;
  }

  lemma ReadLine(v: string, tail: string)
    requires OneLine(v)
    ensures GetRestOfLine(" " + (v + ("\n" + tail))) == Read(v, tail)
  {
    var t := v + ("\n" + tail);
    LineThen(v, tail);
    assert (" " + t)[1..] == t;
    assert t[..|v|] == v && t[|v| + 1..] == tail;
  }

  lemma SkipNewline(tail: string)
    ensures GetWord("\n" + tail) == GetWord(tail)
  {
    assert ("\n" + tail)[1..] == tail;
  }
}
