/** The fallback branch of `generateUUID` (src/utils/uuid.ts): every `x` of
    the template becomes a random hex digit and every `y` a random digit with
    its top two bits forced to `10`, the variant of section 4.1.1 of RFC 4122.
    The random numbers `(Math.random() * 16) | 0` are an input sequence of
    nibbles, one per placeholder, consumed left to right as `replace` visits
    the placeholders. */
module Uuid {
  const Template: string := "xxxxxxxx-xxxx-4xxx-yxxx-xxxxxxxxxxxx"

  const HexDigits: string := "0123456789abcdef"

  predicate IsNibble(v: int) { 0 <= v < 16 }

  predicate IsPlaceholder(c: char) { c == 'x' || c == 'y' }

  predicate IsLowerHex(c: char) { '0' <= c <= '9' || 'a' <= c <= 'f' }

  predicate IsVariantDigit(c: char) { c == '8' || c == '9' || c == 'a' || c == 'b' }

  /** `v.toString(16)` for a nibble: one lower-case hex digit. */
  function Hex(v: int): (c: char)
    requires IsNibble(v)
    ensures IsLowerHex(c)
  {
    HexDigits[v]
  }

  /** The value of a lower-case hex digit; `Hex` undoes it. */
  function HexValue(c: char): (v: int)
    requires IsLowerHex(c)
    ensures IsNibble(v) && Hex(v) == c
  {
    if c <= '9' then c as int - '0' as int else c as int - 'a' as int + 10
  }

  /** `(r & 0x3) | 0x8`, on the eight-bit value of the nibble. */
  function Variant(r: int): (v: int)
    requires IsNibble(r)
    ensures 8 <= v < 12
    ensures v % 4 == r % 4
  {
    (((r as bv8) & 3) | 8) as int
  }

  lemma VariantFixesVariantNibbles(v: int)
    requires 8 <= v < 12
    ensures Variant(v) == v
  {
  }

  lemma VariantDigit(r: int)
    requires IsNibble(r)
    ensures IsVariantDigit(Hex(Variant(r)))
  {
    var v := Variant(r);
    assert v == 8 || v == 9 || v == 10 || v == 11;
  }

  /** How many nibbles filling `t` consumes. */
  function Placeholders(t: string): nat {
    if |t| == 0 then 0 else (if IsPlaceholder(t[0]) then 1 else 0) + Placeholders(t[1..])
  }

  predicate AllNibbles(ns: seq<int>) { forall i :: 0 <= i < |ns| ==> IsNibble(ns[i]) }

  /** `t.replace(/[xy]/g, ...)` with the nibbles drawn so far in `ns`:
      the result keeps every other character of the template in place. */
  function Fill(t: string, ns: seq<int>): (s: string)
    requires AllNibbles(ns) && |ns| == Placeholders(t)
    ensures |s| == |t|
    ensures forall i :: 0 <= i < |t| && !IsPlaceholder(t[i]) ==> s[i] == t[i]
    ensures forall i :: 0 <= i < |t| && t[i] == 'x' ==> IsLowerHex(s[i])
    ensures forall i :: 0 <= i < |t| && t[i] == 'y' ==> IsVariantDigit(s[i])
  {
    if |t| == 0 then ""
    else if t[0] == 'x' then
      [Hex(ns[0])] + Fill(t[1..], ns[1..])
    else if t[0] == 'y' then
      VariantDigit(ns[0]);
      [Hex(Variant(ns[0]))] + Fill(t[1..], ns[1..])
    else
      [t[0]] + Fill(t[1..], ns)
  }

  /** The strings `Fill(t, _)` can produce: the template with each `x` a
      lower-case hex digit and each `y` one of `8`, `9`, `a`, `b`. */
  predicate Fits(t: string, s: string) {
    && |s| == |t|
    && (forall i :: 0 <= i < |t| && !IsPlaceholder(t[i]) ==> s[i] == t[i])
    && (forall i :: 0 <= i < |t| && t[i] == 'x' ==> IsLowerHex(s[i]))
    && (forall i :: 0 <= i < |t| && t[i] == 'y' ==> IsVariantDigit(s[i]))
  }

  /** The nibbles that fill `t` into `s`, read back off `s`. */
  function Nibbles(t: string, s: string): (ns: seq<int>)
    requires Fits(t, s)
    ensures AllNibbles(ns) && |ns| == Placeholders(t)
  {
    if |t| == 0 then []
    else
      assert Fits(t[1..], s[1..]) by {
        forall i | 0 <= i < |t| - 1 ensures t[1..][i] == t[i + 1] && s[1..][i] == s[i + 1] { }
      }
      if IsPlaceholder(t[0]) then [HexValue(s[0])] + Nibbles(t[1..], s[1..])
      else Nibbles(t[1..], s[1..])
  }

  /** Every string that fits the template is produced by some nibbles:
      `Fill` reaches exactly the strings `Fits` describes. */
  lemma {:induction false} FillReachesEveryFit(t: string, s: string)
    requires Fits(t, s)
    ensures Fill(t, Nibbles(t, s)) == s
    decreases |t|
  {
    if |t| > 0 {
      assert Fits(t[1..], s[1..]) by {
        forall i | 0 <= i < |t| - 1 ensures t[1..][i] == t[i + 1] && s[1..][i] == s[i + 1] { }
      }
      FillReachesEveryFit(t[1..], s[1..]);
      if t[0] == 'y' {
        var v := HexValue(s[0]);
        assert 8 <= v < 12;
        VariantFixesVariantNibbles(v);
      }
    }
  }

  lemma FillFits(t: string, ns: seq<int>)
    requires AllNibbles(ns) && |ns| == Placeholders(t)
    ensures Fits(t, Fill(t, ns))
  {
  }

  lemma {:induction false} PlaceholdersAppend(a: string, b: string)
    ensures Placeholders(a + b) == Placeholders(a) + Placeholders(b)
    decreases |a|
  {
    if |a| == 0 {
      assert a + b == b;
    } else {
      assert (a + b)[0] == a[0];
      assert (a + b)[1..] == a[1..] + b;
      PlaceholdersAppend(a[1..], b);
    }
  }

  const Group8: string := "xxxxxxxx"
  const Group4: string := "-xxxx"
  const Group4v: string := "-4xxx"
  const Group4y: string := "-yxxx"
  const Group12: string := "-xxxxxxxxxxxx"

  lemma TemplateGroups()
    ensures Template == Group8 + Group4 + Group4v + Group4y + Group12
  {
  }

  lemma GroupPlaceholders()
    ensures Placeholders(Group8) == 8 && Placeholders(Group4) == 4
    ensures Placeholders(Group4v) == 3 && Placeholders(Group4y) == 4
    ensures Placeholders(Group12) == 12
  {
  }

  lemma TemplatePlaceholders()
    ensures Placeholders(Template) == 31
  {
    TemplateGroups();
    GroupPlaceholders();
    PlaceholdersAppend(Group8, Group4);
    PlaceholdersAppend(Group8 + Group4, Group4v);
    PlaceholdersAppend(Group8 + Group4 + Group4v, Group4y);
    PlaceholdersAppend(Group8 + Group4 + Group4v + Group4y, Group12);
  }

  /** The layout of a version-4 UUID string (section 3 and 4.4 of RFC 4122),
      in lower case. */
  predicate IsV4Uuid(s: string) {
    && |s| == 36
    && s[8] == '-' && s[13] == '-' && s[18] == '-' && s[23] == '-'
    && s[14] == '4'
    && IsVariantDigit(s[19])
    && (forall i :: 0 <= i < 36 && i !in {8, 13, 14, 18, 19, 23} ==> IsLowerHex(s[i]))
  }

  /** Where the template has its dashes, its version digit and its `y`. */
  function TemplateChar(i: int): char {
    if i == 8 || i == 13 || i == 18 || i == 23 then '-'
    else if i == 14 then '4'
    else if i == 19 then 'y'
    else 'x'
  }

  lemma TemplateChars()
    ensures |Template| == 36
    ensures forall i :: 0 <= i < 36 ==> Template[i] == TemplateChar(i)
  {
    forall i | 0 <= i < 36 ensures Template[i] == TemplateChar(i) {
      // The empty `if` splits the 36 positions into blocks of 12, so each
      // case has few characters to unfold.
      if i < 12 {} else if i < 24 {} else {}
    }
  }

  lemma TemplateIsV4Shape(s: string)
    ensures Fits(Template, s) <==> IsV4Uuid(s)
  {
    TemplateChars();
  }

  /** `generateUUID` without `crypto.randomUUID`: always a version-4 UUID. */
  function GenerateUuid(ns: seq<int>): (s: string)
    requires AllNibbles(ns) && |ns| == 31
    ensures IsV4Uuid(s)
  {
    TemplatePlaceholders();
    FillFits(Template, ns);
    TemplateIsV4Shape(Fill(Template, ns));
    Fill(Template, ns)
  }

  /** Every version-4 UUID in lower case is generated by some nibbles. */
  lemma EveryV4IsGenerated(s: string)
    requires IsV4Uuid(s)
    ensures exists ns :: AllNibbles(ns) && |ns| == 31 && GenerateUuid(ns) == s
  {
    TemplateIsV4Shape(s);
    TemplatePlaceholders();
    var ns := Nibbles(Template, s);
    FillReachesEveryFit(Template, s);
    assert GenerateUuid(ns) == s;
  }
}
