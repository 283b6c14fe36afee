/** strings.TrimSpace, over characters and over UTF-8 bytes alike: a blank is a short sequence of either. */
module Text {
  import opened Net

  /** The code points Go counts as white space; all of them fit in three bytes of UTF-8. */
  const WHITE_SPACE: seq<nat> :=
    [9, 10, 11, 12, 13, 32, 0x85, 0xA0, 0x1680, 0x2000, 0x2001, 0x2002, 0x2003, 0x2004, 0x2005, 0x2006, 0x2007,
     0x2008, 0x2009, 0x200A, 0x2028, 0x2029, 0x202F, 0x205F, 0x3000]

  function CharBlanks(): seq<string> {
    seq(|WHITE_SPACE|, i requires 0 <= i < |WHITE_SPACE| => [WHITE_SPACE[i] as char])
  }

  /** Section 3 of RFC 3629, up to U+FFFF. */
  function Utf8(point: nat): (bytes: seq<Byte>)
    requires point < 0x10000
    ensures bytes != []
    ensures bytes[0] == 0 <==> point == 0
  {
    if point < 0x80 then [point]
    else if point < 0x800 then [0xC0 + point / 0x40, 0x80 + point % 0x40]
    else [0xE0 + point / 0x1000, 0x80 + point / 0x40 % 0x40, 0x80 + point % 0x40]
  }

  function ByteBlanks(): seq<seq<Byte>> {
    seq(|WHITE_SPACE|, i requires 0 <= i < |WHITE_SPACE| => Utf8(WHITE_SPACE[i]))
  }

  /** The width of the blank the text starts with, 0 if it starts with none. */
  function LeadingBlank<T(==)>(s: seq<T>, blanks: seq<seq<T>>): (width: nat)
    ensures width <= |s|
  {
    if blanks == [] then 0
    else if blanks[0] <= s then |blanks[0]|
    else LeadingBlank(s, blanks[1..])
  }

  function TrailingBlank<T(==)>(s: seq<T>, blanks: seq<seq<T>>): (width: nat)
    ensures width <= |s|
  {
    if blanks == [] then 0
    else if |blanks[0]| <= |s| && s[|s| - |blanks[0]|..] == blanks[0] then |blanks[0]|
    else TrailingBlank(s, blanks[1..])
  }

  function TrimLeft<T(==)>(s: seq<T>, blanks: seq<seq<T>>): seq<T> {
    var width := LeadingBlank(s, blanks);
    if width == 0 then s else TrimLeft(s[width..], blanks)
  }

  function TrimRight<T(==)>(s: seq<T>, blanks: seq<seq<T>>): seq<T> {
    var width := TrailingBlank(s, blanks);
    if width == 0 then s else TrimRight(s[..|s| - width], blanks)
  }

  function Trim<T(==)>(s: seq<T>, blanks: seq<seq<T>>): seq<T> {
    TrimRight(TrimLeft(s, blanks), blanks)
  }

  predicate NonEmpty<T(==)>(blanks: seq<seq<T>>) {
    forall i :: 0 <= i < |blanks| ==> blanks[i] != []
  }

  lemma CharBlanksNonEmpty()
    ensures NonEmpty(CharBlanks())
  {
  }

  lemma {:induction false} NoLeadingBlank<T>(s: seq<T>, blanks: seq<seq<T>>)
    requires NonEmpty(blanks)
    ensures LeadingBlank(s, blanks) == 0 <==> forall i :: 0 <= i < |blanks| ==> !(blanks[i] <= s)
  {
    if blanks != [] {
      NoLeadingBlank(s, blanks[1..]);
      assert forall i :: 0 <= i < |blanks[1..]| ==> blanks[1..][i] == blanks[i + 1];
      if forall i :: 0 <= i < |blanks[1..]| ==> !(blanks[1..][i] <= s) {
        forall i | 1 <= i < |blanks|
          ensures !(blanks[i] <= s)
        {
          assert blanks[i] == blanks[1..][i - 1];
        }
      }
    }
  }

  lemma {:induction false} TrimLeftStops<T>(s: seq<T>, blanks: seq<seq<T>>)
    ensures LeadingBlank(TrimLeft(s, blanks), blanks) == 0
    decreases |s|
  {
    var width := LeadingBlank(s, blanks);
    if width > 0 {
      TrimLeftStops(s[width..], blanks);
    }
  }

  lemma {:induction false} TrimRightStops<T>(s: seq<T>, blanks: seq<seq<T>>)
    ensures TrimRight(s, blanks) <= s && TrailingBlank(TrimRight(s, blanks), blanks) == 0
    decreases |s|
  {
    var width := TrailingBlank(s, blanks);
    if width > 0 {
      TrimRightStops(s[..|s| - width], blanks);
    }
  }

  /** Trimming leaves no blank at either end, so trimming again changes nothing. */
  lemma TrimStable<T>(s: seq<T>, blanks: seq<seq<T>>)
    requires NonEmpty(blanks)
    ensures Trim(Trim(s, blanks), blanks) == Trim(s, blanks)
    ensures LeadingBlank(Trim(s, blanks), blanks) == TrailingBlank(Trim(s, blanks), blanks) == 0
  {
    var left := TrimLeft(s, blanks);
    TrimLeftStops(s, blanks);
    TrimRightStops(left, blanks);
    NoLeadingBlank(left, blanks);
    NoLeadingBlank(Trim(s, blanks), blanks);
  }

  /** If no blank begins like the text, trimming takes from its end only. */
  lemma HeadStays<T>(s: seq<T>, blanks: seq<seq<T>>)
    requires s != [] && NonEmpty(blanks) && forall i :: 0 <= i < |blanks| ==> blanks[i][0] != s[0]
    ensures Trim(s, blanks) <= s
  {
    NoLeadingBlank(s, blanks);
    TrimRightStops(s, blanks);
  }

  lemma ByteBlanksNonZero()
    ensures NonEmpty(ByteBlanks())
    ensures forall i :: 0 <= i < |ByteBlanks()| ==> ByteBlanks()[i][0] != 0
  {
    forall i | 0 <= i < |WHITE_SPACE|
      ensures ByteBlanks()[i] != [] && ByteBlanks()[i][0] != 0
    {
      assert ByteBlanks()[i] == Utf8(WHITE_SPACE[i]) && WHITE_SPACE[i] != 0;
    }
  }

  // ----- what trimming takes, and what it leaves -----

  function Concat<T>(parts: seq<seq<T>>): seq<T> {
    if parts == [] then [] else parts[0] + Concat(parts[1..])
  }

  predicate AllBlank<T(==)>(parts: seq<seq<T>>, blanks: seq<seq<T>>) {
    forall i :: 0 <= i < |parts| ==> parts[i] in blanks
  }

  lemma {:induction false} ConcatAppend<T>(parts: seq<seq<T>>, last: seq<T>)
    ensures Concat(parts + [last]) == Concat(parts) + last
  {
    if parts == [] {
      assert ([] + [last])[1..] == [];
    } else {
      assert (parts + [last])[1..] == parts[1..] + [last];
      ConcatAppend(parts[1..], last);
    }
  }

  lemma ConcatPrepend<T>(first: seq<T>, parts: seq<seq<T>>)
    ensures Concat([first] + parts) == first + Concat(parts)
  {
    assert ([first] + parts)[1..] == parts;
  }

  lemma {:induction false} LeadingIsBlank<T>(s: seq<T>, blanks: seq<seq<T>>)
    ensures var width := LeadingBlank(s, blanks); width > 0 ==> s[..width] in blanks
  {
    if blanks != [] && blanks[0] <= s {
      assert s[..|blanks[0]|] == blanks[0];
    } else if blanks != [] {
      LeadingIsBlank(s, blanks[1..]);
    }
  }

  lemma {:induction false} TrailingIsBlank<T>(s: seq<T>, blanks: seq<seq<T>>)
    ensures var width := TrailingBlank(s, blanks); width > 0 ==> s[|s| - width..] in blanks
  {
    if blanks != [] && !(|blanks[0]| <= |s| && s[|s| - |blanks[0]|..] == blanks[0]) {
      TrailingIsBlank(s, blanks[1..]);
    }
  }

  lemma Glue<T>(s: seq<T>, a: seq<T>, tail: seq<T>, b: seq<T>, c: seq<T>)
    requires s == a + tail && tail == b + c
    ensures s == (a + b) + c
  {
  }

  lemma GlueRight<T>(s: seq<T>, a: seq<T>, b: seq<T>, front: seq<T>, c: seq<T>)
    requires s == front + c && front == a + b
    ensures s == a + (b + c)
  {
  }

  lemma {:induction false} LeftPart<T>(s: seq<T>, blanks: seq<seq<T>>) returns (lead: seq<seq<T>>)
    ensures AllBlank(lead, blanks) && s == Concat(lead) + TrimLeft(s, blanks)
    decreases |s|
  {
    var width := LeadingBlank(s, blanks);
    if width == 0 {
      lead := [];
    } else {
      LeadingIsBlank(s, blanks);
      var rest := LeftPart(s[width..], blanks);
      lead := [s[..width]] + rest;
      ConcatPrepend(s[..width], rest);
      assert s == s[..width] + s[width..];
      Glue(s, s[..width], s[width..], Concat(rest), TrimLeft(s[width..], blanks));
    }
  }

  lemma {:induction false} RightPart<T>(s: seq<T>, blanks: seq<seq<T>>) returns (trail: seq<seq<T>>)
    ensures AllBlank(trail, blanks) && s == TrimRight(s, blanks) + Concat(trail)
    decreases |s|
  {
    var width := TrailingBlank(s, blanks);
    if width == 0 {
      trail := [];
    } else {
      TrailingIsBlank(s, blanks);
      var front, last := s[..|s| - width], s[|s| - width..];
      var rest := RightPart(front, blanks);
      trail := rest + [last];
      ConcatAppend(rest, last);
      assert s == front + last;
      GlueRight(s, TrimRight(front, blanks), Concat(rest), front, last);
    }
  }

  /** Trimming takes blanks off both ends, nothing else, and all of them. */
  lemma TrimDecomposes<T>(s: seq<T>, blanks: seq<seq<T>>) returns (lead: seq<seq<T>>, trail: seq<seq<T>>)
    requires NonEmpty(blanks)
    ensures AllBlank(lead, blanks) && AllBlank(trail, blanks)
    ensures s == Concat(lead) + Trim(s, blanks) + Concat(trail)
    ensures LeadingBlank(Trim(s, blanks), blanks) == TrailingBlank(Trim(s, blanks), blanks) == 0
  {
    lead := LeftPart(s, blanks);
    trail := RightPart(TrimLeft(s, blanks), blanks);
    TrimStable(s, blanks);
  }

  /** What ends in something that occurs in no blank stays at the head of the text. */
  lemma {:induction false} TrimRightKeeps<T>(keep: seq<T>, s: seq<T>, blanks: seq<seq<T>>)
    requires keep != [] && keep <= s && forall i :: 0 <= i < |blanks| ==> keep[|keep| - 1] !in blanks[i]
    ensures keep <= TrimRight(s, blanks)
    decreases |s|
  {
    var width := TrailingBlank(s, blanks);
    if width > 0 {
      TrailingIsBlank(s, blanks);
      var last := s[|s| - width..];
      forall k | |s| - width <= k < |s|
        ensures s[k] in last
      {
        assert s[k] == last[k - (|s| - width)];
      }
      TrimRightKeeps(keep, s[..|s| - width], blanks);
    }
  }

  /** No blank begins another one. */
  predicate PrefixFree<T(==)>(blanks: seq<seq<T>>) {
    forall i, j :: 0 <= i < |blanks| && 0 <= j < |blanks| && blanks[i] <= blanks[j] ==> blanks[i] == blanks[j]
  }

  lemma {:induction false} LeadingIs<T>(b: seq<T>, s: seq<T>, blanks: seq<seq<T>>)
    requires PrefixFree(blanks) && b in blanks
    ensures LeadingBlank(b + s, blanks) == |b|
  {
    var i :| 0 <= i < |blanks| && blanks[i] == b;
    var first := blanks[0];
    if first <= b + s {
      assert first <= b || b <= first;
    } else {
      assert b != first;
      assert b == blanks[1..][i - 1];
      LeadingIs(b, s, blanks[1..]);
    }
  }

  /** Blanks in front do not matter. */
  lemma {:induction false} TrimLeftSkips<T>(lead: seq<seq<T>>, s: seq<T>, blanks: seq<seq<T>>)
    requires PrefixFree(blanks) && NonEmpty(blanks) && AllBlank(lead, blanks)
    ensures TrimLeft(Concat(lead) + s, blanks) == TrimLeft(s, blanks)
  {
    if lead == [] {
      assert [] + s == s;
    } else {
      var rest := Concat(lead[1..]) + s;
      LeadingIs(lead[0], rest, blanks);
      assert Concat(lead) + s == lead[0] + rest;
      assert (lead[0] + rest)[|lead[0]|..] == rest;
      TrimLeftSkips(lead[1..], s, blanks);
    }
  }

  lemma Utf8Bytes(point: nat, b: Byte)
    requires point < 0x10000 && b in Utf8(point)
    ensures b >= 0x80 || b == point
  {
  }

  lemma Utf8PrefixFree(p: nat, q: nat)
    requires p < 0x10000 && q < 0x10000 && Utf8(p) <= Utf8(q)
    ensures p == q
  {
    var a, b := Utf8(p), Utf8(q);
    assert a[0] == b[0];
    assert |a| > 1 ==> a[1] == b[1];
    assert |a| > 2 ==> a[2] == b[2];
    if p >= 0x800 {
      SixBits(p / 0x40, q / 0x40);
      SixBits(p, q);
    } else if p >= 0x80 {
      SixBits(p, q);
    }
  }

  lemma SixBits(p: nat, q: nat)
    ensures p / 0x40 == q / 0x40 && p % 0x40 == q % 0x40 ==> p == q
    ensures p / 0x40 / 0x40 == p / 0x1000 && q / 0x40 / 0x40 == q / 0x1000
  {
  }

  /** The bytes of a blank are no ASCII but white space, and no blank begins another. */
  lemma ByteBlanksPlain(b: seq<Byte>)
    requires b in ByteBlanks()
    ensures b != [] && forall x :: x in b ==> x >= 0x80 || x == 32 || 9 <= x <= 13
  {
    var i :| 0 <= i < |WHITE_SPACE| && ByteBlanks()[i] == b;
    forall x | x in b
      ensures x >= 0x80 || x == 32 || 9 <= x <= 13
    {
      Utf8Bytes(WHITE_SPACE[i], x);
    }
  }

  lemma ByteBlanksPrefixFree()
    ensures PrefixFree(ByteBlanks())
  {
    forall i, j | 0 <= i < |WHITE_SPACE| && 0 <= j < |WHITE_SPACE| && ByteBlanks()[i] <= ByteBlanks()[j]
      ensures ByteBlanks()[i] == ByteBlanks()[j]
    {
      Utf8PrefixFree(WHITE_SPACE[i], WHITE_SPACE[j]);
    }
  }

  // ----- characters -----

  /** unicode.IsSpace. */
  predicate IsSpace(c: char) {
    || '\t' <= c <= '\r' || c == ' ' || c == '\U{0085}' || c == '\U{00A0}' || c == '\U{1680}'
    || '\U{2000}' <= c <= '\U{200A}' || c == '\U{2028}' || c == '\U{2029}' || c == '\U{202F}'
    || c == '\U{205F}' || c == '\U{3000}'
  }

  lemma SpaceIsListed(c: char)
    ensures IsSpace(c) <==> exists i :: 0 <= i < |WHITE_SPACE| && WHITE_SPACE[i] == c as nat
  {
    if IsSpace(c) {
      var n := c as nat;
      var i := if n <= 13 then n - 9 else if n == 32 then 5 else if n == 0x85 then 6 else if n == 0xA0 then 7
               else if n == 0x1680 then 8 else if n <= 0x200A then 9 + n - 0x2000 else if n == 0x2028 then 20
               else if n == 0x2029 then 21 else if n == 0x202F then 22 else if n == 0x205F then 23 else 24;
      assert WHITE_SPACE[i] == n;
    }
  }

  lemma CharBlankIff(c: char)
    ensures [c] in CharBlanks() <==> IsSpace(c)
  {
    SpaceIsListed(c);
    if i :| 0 <= i < |WHITE_SPACE| && WHITE_SPACE[i] == c as nat {
      assert CharBlanks()[i] == [c];
    }
  }

  lemma SpaceLeads(s: string)
    ensures LeadingBlank(s, CharBlanks()) == if s != [] && IsSpace(s[0]) then 1 else 0
  {
    LeadingIsBlank(s, CharBlanks());
    CharBlanksNonEmpty();
    NoLeadingBlank(s, CharBlanks());
    if s != [] {
      CharBlankIff(s[0]);
      if IsSpace(s[0]) {
        var i :| 0 <= i < |CharBlanks()| && CharBlanks()[i] == [s[0]];
        assert CharBlanks()[i] <= s;
      }
    }
    var width := LeadingBlank(s, CharBlanks());
    if width > 0 {
      var i :| 0 <= i < |CharBlanks()| && CharBlanks()[i] == s[..width];
      assert |CharBlanks()[i]| == 1;
      assert s[..width] == [s[0]];
    }
  }

  lemma {:induction false} NoTrailingBlank<T>(s: seq<T>, blanks: seq<seq<T>>, b: seq<T>)
    requires NonEmpty(blanks) && b in blanks && |b| <= |s| && s[|s| - |b|..] == b
    ensures TrailingBlank(s, blanks) > 0
  {
    var i :| 0 <= i < |blanks| && blanks[i] == b;
    if i > 0 {
      assert b == blanks[1..][i - 1];
      assert NonEmpty(blanks[1..]);
      NoTrailingBlank(s, blanks[1..], b);
    }
  }

  lemma SpaceTrails(s: string)
    ensures TrailingBlank(s, CharBlanks()) == if s != [] && IsSpace(s[|s| - 1]) then 1 else 0
  {
    TrailingIsBlank(s, CharBlanks());
    CharBlanksNonEmpty();
    if s != [] {
      CharBlankIff(s[|s| - 1]);
      if IsSpace(s[|s| - 1]) {
        NoTrailingBlank(s, CharBlanks(), [s[|s| - 1]]);
      }
    }
    var width := TrailingBlank(s, CharBlanks());
    if width > 0 {
      var i :| 0 <= i < |CharBlanks()| && CharBlanks()[i] == s[|s| - width..];
      assert |CharBlanks()[i]| == 1;
      assert s[|s| - width..] == [s[|s| - 1]];
    }
  }

  predicate AllSpace(s: string) {
    forall i :: 0 <= i < |s| ==> IsSpace(s[i])
  }

  lemma {:induction false} LeadGoes(lead: string, s: string)
    requires AllSpace(lead)
    ensures TrimLeft(lead + s, CharBlanks()) == TrimLeft(s, CharBlanks())
  {
    if lead == [] {
      assert lead + s == s;
    } else {
      SpaceLeads(lead + s);
      assert (lead + s)[1..] == lead[1..] + s;
      LeadGoes(lead[1..], s);
    }
  }

  lemma {:induction false} TrailGoes(s: string, trail: string)
    requires AllSpace(trail)
    ensures TrimRight(s + trail, CharBlanks()) == TrimRight(s, CharBlanks())
  {
    if trail == [] {
      assert s + trail == s;
    } else {
      var k := |trail| - 1;
      SpaceTrails(s + trail);
      assert (s + trail)[..|s + trail| - 1] == s + trail[..k];
      TrailGoes(s, trail[..k]);
    }
  }

  /** A text between blanks is what trimming leaves. */
  lemma TrimSurrounded(lead: string, text: string, trail: string)
    requires AllSpace(lead) && AllSpace(trail)
    requires text != "" && !IsSpace(text[0]) && !IsSpace(text[|text| - 1])
    ensures Trim(lead + text + trail, CharBlanks()) == text
  {
    assert lead + text + trail == lead + (text + trail);
    LeadGoes(lead, text + trail);
    SpaceLeads(text + trail);
    TrailGoes(text, trail);
    SpaceTrails(text);
  }
}
