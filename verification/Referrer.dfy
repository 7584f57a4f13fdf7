/** The Play referrer: what the redirect writes into the store link and what the parser makes of it. */
module Referrer {
  import opened Common
  import opened QueryString

  const MAX_REFERRER_LENGTH: nat := 2048
  const MAX_DESTINATION: nat := 512
  const CLICK_ID_KEYS: seq<string> := ["utm_content", "mmp_click_id", "click_id", "clickid", "cid"]
  const DEEP_LINK_KEYS: seq<string> := ["deep_link", "deeplink", "af_dp"]

  // --- the printer ---

  /** The 32 hexadecimal digits of a click id, as the platform prints them. */
  predicate IsClickId(h: string) { |h| == 32 && forall i | 0 <= i < |h| :: '0' <= h[i] <= '9' || 'a' <= h[i] <= 'f' }

  function Hyphenated(h: string): string
    requires |h| == 32
  {
    h[..8] + "-" + h[8..12] + "-" + h[12..16] + "-" + h[16..20] + "-" + h[20..]
  }

  function Field(key: string, value: string): string { key + "=" + value }

  /** A click id under one key and, unless empty, a deep link under another. */
  function PrintedUnder(idKey: string, linkKey: string, clickId: string, deepLink: string): string {
    Field(idKey, Quote(clickId)) + (if deepLink == [] then [] else "&" + Field(linkKey, Quote(deepLink)))
  }

  /** The referrer the redirect writes. */
  function Printed(clickId: string, deepLink: string): string {
    PrintedUnder("utm_content", "deep_link", clickId, deepLink)
  }

  // --- the parser ---

  predicate IsSpace(c: char) { c == ' ' || 9 as char <= c <= 13 as char || 28 as char <= c <= 31 as char }

  function TrimLeft(s: string, drop: char -> bool): string {
    if s != [] && drop(s[0]) then TrimLeft(s[1..], drop) else s
  }

  function TrimRight(s: string, drop: char -> bool): string {
    if s != [] && drop(s[|s| - 1]) then TrimRight(s[..|s| - 1], drop) else s
  }

  function Trim(s: string, drop: char -> bool): string { TrimRight(TrimLeft(s, drop), drop) }

  /** Remove every occurrence of `w`, left to right. */
  function Remove(s: string, w: string): string
    requires w != []
  {
    if s == [] then [] else if w <= s then Remove(s[|w|..], w) else [s[0]] + Remove(s[1..], w)
  }

  function Lower(c: char): char { if 'A' <= c <= 'Z' then c - 'A' + 'a' else c }

  function Lowered(s: string): string { seq(|s|, i requires 0 <= i < |s| => Lower(s[i])) }

  /** Read a UUID in any of its usual spellings; the digits are the identity. */
  function AsUuid(value: Option<string>): Option<string> {
    if value.None? || value.value == [] then None
    else
      var text := Remove(Remove(Trim(value.value, IsSpace), "urn:"), "uuid:");
      var digits := Remove(Trim(text, c => c in "{}"), "-");
      if |digits| == 32 && forall i | 0 <= i < 32 :: IsHex(digits[i]) then Some(Lowered(digits)) else None
  }

  /** Still looks percent-encoded: an encoded '=' or '&' somewhere. */
  predicate LooksEncoded(s: string) {
    s != [] && ("%3D" <= s || "%26" <= s || LooksEncoded(s[1..]))
  }

  function Cut(s: string, n: nat): string { if |s| > n then s[..n] else s }

  function Candidate(referrer: string): string {
    var cut := Cut(referrer, MAX_REFERRER_LENGTH);
    if LooksEncoded(cut) then Unquote(cut) else cut
  }

  function FirstClickId(fields: seq<string>, keys: seq<string>): Option<string> {
    if keys == [] then None
    else
      var id := AsUuid(Lookup(fields, keys[0]));
      if id.Some? then id else FirstClickId(fields, keys[1..])
  }

  function FirstValue(fields: seq<string>, keys: seq<string>): Option<string> {
    if keys == [] then None
    else
      var v := Lookup(fields, keys[0]);
      if v.Some? && v.value != [] then v else FirstValue(fields, keys[1..])
  }

  function DeepLinkIn(fields: seq<string>, keys: seq<string>): Option<string> {
    var link := FirstValue(fields, keys);
    if link.Some? then Some(Unquote(link.value)) else None
  }

  datatype Parsed = Parsed(clickId: Option<string>, deepLink: Option<string>,
                           source: Option<string>, medium: Option<string>, campaign: Option<string>)

  function Parse(referrer: string): Parsed {
    if referrer == [] then Parsed(None, None, None, None, None)
    else
      var fields := Fields(Candidate(referrer));
      Parsed(FirstClickId(fields, CLICK_ID_KEYS), DeepLinkIn(fields, DEEP_LINK_KEYS),
             Lookup(fields, "utm_source"), Lookup(fields, "utm_medium"), Lookup(fields, "utm_campaign"))
  }

  // --- the click id ---

  lemma {:induction false} NothingToRemove(s: string, w: string)
    requires w != [] && w[0] !in s
    ensures Remove(s, w) == s
  {
    if s != [] {
      NothingToRemove(s[1..], w);
      assert s[0] in s && !(w <= s);
    }
  }

  lemma {:induction false} RemoveConcat(a: string, b: string)
    requires '-' !in a
    ensures Remove(a + "-" + b, "-") == a + Remove(b, "-")
  {
    var s := a + "-" + b;
    if a == [] {
      assert "-" <= s && s[1..] == b;
    } else {
      assert s[0] == a[0] && s[1..] == a[1..] + "-" + b;
      RemoveConcat(a[1..], b);
      assert !("-" <= s);
    }
  }

  lemma HyphensRemoved(h: string)
    requires |h| == 32 && '-' !in h
    ensures Remove(Hyphenated(h), "-") == h
  {
    var p1, p2, p3, p4, p5 := h[..8], h[8..12], h[12..16], h[16..20], h[20..];
    var t4 := p4 + "-" + p5;
    var t3 := p3 + "-" + t4;
    var t2 := p2 + "-" + t3;
    assert Hyphenated(h) == p1 + "-" + t2;
    NothingToRemove(p5, "-");
    RemoveConcat(p4, p5);
    RemoveConcat(p3, t4);
    RemoveConcat(p2, t3);
    RemoveConcat(p1, t2);
    assert h == p1 + (p2 + (p3 + (p4 + p5)));
  }

  predicate IdChar(c: char) { '0' <= c <= '9' || 'a' <= c <= 'f' || c == '-' }

  lemma HyphenatedChars(h: string)
    requires IsClickId(h)
    ensures |Hyphenated(h)| == 36 && forall i | 0 <= i < 36 :: IdChar(Hyphenated(h)[i])
  {
  }

  /** A printed click id reads back as itself. */
  lemma ClickIdReads(h: string)
    requires IsClickId(h)
    ensures AsUuid(Some(Hyphenated(h))) == Some(h)
  {
    var s := Hyphenated(h);
    HyphenatedChars(h);
    assert Trim(s, IsSpace) == s;
    NothingToRemove(s, "urn:");
    NothingToRemove(s, "uuid:");
    assert Trim(s, c => c in "{}") == s;
    HyphensRemoved(h);
    assert Lowered(h) == h;
  }

  predicate IsPlain(s: string) { s != [] && forall i | 0 <= i < |s| :: Unreserved(s[i]) }

  lemma {:induction false} PlainText(s: string)
    requires forall i | 0 <= i < |s| :: Unreserved(s[i])
    ensures Quote(s) == s && '%' !in s && '+' !in s && '&' !in s && '=' !in s && ' ' !in s
  {
    if s != [] {
      PlainText(s[1..]);
      assert s == [s[0]] + s[1..];
    }
  }

  lemma ClickIdIsPlain(h: string)
    requires IsClickId(h)
    ensures IsPlain(Hyphenated(h))
  {
    HyphenatedChars(h);
  }

  /** A field of plain key and value reads as written. */
  lemma PlainField(key: string, value: string)
    requires IsPlain(key) && IsPlain(value)
    ensures '&' !in Field(key, value) && '%' !in Field(key, value)
    ensures ReadField(Field(key, value)) == Some((key, value))
  {
    PlainText(key);
    PlainText(value);
    ReadPlainField(key, value);
    PlusFree(value);
    PercentFree(value);
  }

  lemma {:induction false} PlainPrefix(a: string, t: string)
    requires '%' !in a
    ensures LooksEncoded(a + t) <==> LooksEncoded(t)
  {
    if a == [] {
      assert a + t == t;
    } else {
      assert (a + t)[1..] == a[1..] + t && (a + t)[0] == a[0] && a[0] in a;
      PlainPrefix(a[1..], t);
    }
  }

  lemma CutConcat(a: string, b: string, n: nat)
    requires |a| <= n
    ensures Cut(a + b, n) == a + Cut(b, n - |a|)
  {
  }

  /** Whatever follows it, a plain first parameter stays the first field of what the parser reads. */
  lemma CandidateKeepsFirst(first: string, rest: string)
    requires '&' !in first && '%' !in first && |first| < MAX_REFERRER_LENGTH
    ensures Fields(Candidate(first + "&" + rest))[0] == first
  {
    var tail := Cut(rest, MAX_REFERRER_LENGTH - |first| - 1);
    CutConcat(first + "&", rest, MAX_REFERRER_LENGTH);
    UnquotePrefix(first + "&", tail);
    OneField(first);
    FieldsConcat(first, tail);
    FieldsConcat(first, Unquote(tail));
  }

  lemma CandidateAlone(first: string)
    requires '&' !in first && '%' !in first && |first| < MAX_REFERRER_LENGTH
    ensures Fields(Candidate(first)) == [first]
  {
    PlainPrefix(first, []);
    assert first + [] == first;
    OneField(first);
  }

  lemma FirstFieldComesBack(idKey: string, linkKey: string, id: string, deepLink: string)
    requires IsPlain(idKey) && IsPlain(id) && |idKey| + |id| < 100
    ensures ReadField(Fields(Candidate(PrintedUnder(idKey, linkKey, id, deepLink)))[0]) == Some((idKey, id))
  {
    PlainText(id);
    PlainField(idKey, id);
    var r := PrintedUnder(idKey, linkKey, id, deepLink);
    var first := Field(idKey, id);
    if deepLink == [] {
      assert r == first;
      CandidateAlone(first);
    } else {
      assert r == first + "&" + Field(linkKey, Quote(deepLink));
      CandidateKeepsFirst(first, Field(linkKey, Quote(deepLink)));
    }
  }

  lemma FoundUnderFirstKey(fields: seq<string>, keys: seq<string>, h: string)
    requires IsClickId(h) && fields != [] && keys != [] && ReadField(fields[0]) == Some((keys[0], Hyphenated(h)))
    ensures FirstClickId(fields, keys) == Some(h)
  {
    ClickIdReads(h);
  }

  /** For every deep link, the click id the redirect wrote is the click id the parser finds. */
  lemma ClickIdComesBack(h: string, deepLink: string)
    requires IsClickId(h)
    ensures Parse(Printed(Hyphenated(h), deepLink)).clickId == Some(h)
  {
    var r := Printed(Hyphenated(h), deepLink);
    ClickIdIsPlain(h);
    HyphenatedChars(h);
    FirstFieldComesBack("utm_content", "deep_link", Hyphenated(h), deepLink);
    FoundUnderFirstKey(Fields(Candidate(r)), CLICK_ID_KEYS, h);
  }

  // --- the same, encoded once more on the way ---

  lemma {:induction false} QuoteConcat(a: string, b: string)
    ensures Quote(a + b) == Quote(a) + Quote(b)
  {
    if a == [] {
      assert a + b == b;
    } else {
      assert (a + b)[1..] == a[1..] + b;
      QuoteConcat(a[1..], b);
    }
  }

  lemma EncodedMarks()
    ensures Quote("=") == "%3D" && Quote("&") == "%26"
  {
    assert "="[1..] == [] && "&"[1..] == [];
  }

  lemma LooksEncodedAfter(key: string, value: string, t: string)
    requires '%' !in key
    ensures LooksEncoded(((key + "%3D") + value) + t)
  {
    var u := ("%3D" + value) + t;
    Associates(key, "%3D", value);
    Associates(key, "%3D" + value, t);
    assert "%3D" <= u;
    PlainPrefix(key, u);
  }

  /** A plain field, encoded: its '=' is what tells the parser to decode. */
  lemma EncodedField(key: string, value: string, t: string)
    requires IsPlain(key) && IsPlain(value)
    ensures Quote(Field(key, value)) == (key + "%3D") + value && LooksEncoded(Quote(Field(key, value)) + t)
  {
    PlainText(key);
    PlainText(value);
    EncodedMarks();
    QuoteConcat(key, "=");
    QuoteConcat(key + "=", value);
    LooksEncodedAfter(key, value, t);
  }

  lemma EncodedHead(key: string, value: string, t: string)
    requires IsPlain(key) && IsPlain(value)
    ensures var head := Quote(Field(key, value) + "&");
            LooksEncoded(head + t) && |head| == |key| + |value| + 6
  {
    var first := Field(key, value);
    EncodedMarks();
    QuoteConcat(first, "&");
    EncodedField(key, value, "%26" + t);
    Associates(Quote(first), "%26", t);
  }

  /** An encoded referrer that opens with a plain field decodes to one that does, however it is cut. */
  lemma EncodedAgainKeepsFirst(key: string, value: string, rest: string)
    requires IsPlain(key) && IsPlain(value) && |key| + |value| < 100
    ensures Fields(Candidate(Quote(Field(key, value) + ("&" + rest))))[0] == Field(key, value)
  {
    var first := Field(key, value);
    var head := Quote(first + "&");
    EncodedHead(key, value, []);
    var t := Cut(Quote(rest), MAX_REFERRER_LENGTH - |head|);
    assert Cut(Quote(first + ("&" + rest)), MAX_REFERRER_LENGTH) == head + t by {
      Associates(first, "&", rest);
      QuoteConcat(first + "&", rest);
      CutConcat(head, Quote(rest), MAX_REFERRER_LENGTH);
    }
    EncodedHead(key, value, t);
    assert Unquote(head + t) == first + "&" + Unquote(t) by {
      PlainBytes(key, value);
      UnquoteQuote(first + "&", t);
    }
    PlainField(key, value);
    OneField(first);
    FieldsConcat(first, Unquote(t));
  }

  lemma PlainBytes(key: string, value: string)
    requires IsPlain(key) && IsPlain(value)
    ensures IsBytes(Field(key, value)) && IsBytes(Field(key, value) + "&")
  {
  }

  lemma EncodedAgainAlone(key: string, value: string)
    requires IsPlain(key) && IsPlain(value) && |key| + |value| < 100
    ensures Fields(Candidate(Quote(Field(key, value)))) == [Field(key, value)]
  {
    var first := Field(key, value);
    PlainField(key, value);
    EncodedField(key, value, []);
    assert Quote(first) + [] == Quote(first) && first + [] == first;
    PlainBytes(key, value);
    UnquoteQuote(first, []);
    OneField(first);
  }

  lemma {:induction false} NoSpacesNoPlus(s: string)
    requires NoSpace(s)
    ensures QuotePlus(s) == Quote(s)
  {
    if s != [] { NoSpacesNoPlus(s[1..]); }
  }

  lemma {:induction false} QuoteIsAscii(s: string)
    ensures NoSpace(Quote(s)) && '&' !in Quote(s) && |s| <= |Quote(s)| <= 3 * |s|
  {
    if s != [] {
      QuoteIsAscii(s[1..]);
      HexRoundTrip(s[0] as nat / 16 % 16);
      HexRoundTrip(s[0] as nat % 16);
    }
  }

  predicate NoSpace(s: string) { forall i | 0 <= i < |s| :: s[i] != ' ' && s[i] < 256 as char }

  lemma NoSpaceConcat(a: string, b: string)
    requires NoSpace(a) && NoSpace(b)
    ensures NoSpace(a + b)
  {
  }

  lemma PrintedIsAscii(idKey: string, linkKey: string, id: string, deepLink: string)
    requires IsPlain(idKey) && IsPlain(linkKey)
    ensures NoSpace(PrintedUnder(idKey, linkKey, id, deepLink))
  {
    QuoteIsAscii(id);
    QuoteIsAscii(deepLink);
    NoSpaceConcat(idKey, "=");
    NoSpaceConcat(idKey + "=", Quote(id));
    NoSpaceConcat(linkKey, "=");
    NoSpaceConcat(linkKey + "=", Quote(deepLink));
    NoSpaceConcat("&", Field(linkKey, Quote(deepLink)));
    NoSpaceConcat(Field(idKey, Quote(id)), "&" + Field(linkKey, Quote(deepLink)));
  }

  lemma FirstFieldComesBackEncoded(idKey: string, linkKey: string, id: string, deepLink: string)
    requires IsPlain(idKey) && IsPlain(linkKey) && IsPlain(id) && |idKey| + |id| < 100
    ensures ReadField(Fields(Candidate(QuotePlus(PrintedUnder(idKey, linkKey, id, deepLink))))[0]) == Some((idKey, id))
  {
    PlainText(id);
    PlainField(idKey, id);
    var r := PrintedUnder(idKey, linkKey, id, deepLink);
    PrintedIsAscii(idKey, linkKey, id, deepLink);
    NoSpacesNoPlus(r);
    if deepLink == [] {
      assert r == Field(idKey, id);
      EncodedAgainAlone(idKey, id);
    } else {
      EncodedAgainKeepsFirst(idKey, id, Field(linkKey, Quote(deepLink)));
    }
  }

  /** The click id also comes back from a referrer that was form-encoded once more on its way. */
  lemma ClickIdComesBackEncoded(h: string, deepLink: string)
    requires IsClickId(h)
    ensures Parse(QuotePlus(Printed(Hyphenated(h), deepLink))).clickId == Some(h)
  {
    var d := QuotePlus(Printed(Hyphenated(h), deepLink));
    ClickIdIsPlain(h);
    HyphenatedChars(h);
    FirstFieldComesBackEncoded("utm_content", "deep_link", Hyphenated(h), deepLink);
    FoundUnderFirstKey(Fields(Candidate(d)), CLICK_ID_KEYS, h);
  }

  // --- the deep link ---

  lemma EncodedCharLooks(c: char, t: string)
    requires c < 256 as char
    ensures LooksEncoded(QuoteChar(c) + t) <==> c == '=' || c == '&' || LooksEncoded(t)
  {
    var q := QuoteChar(c);
    if Unreserved(c) {
      PlainPrefix(q, t);
    } else {
      var hi, lo := c as nat / 16, c as nat % 16;
      HexRoundTrip(hi);
      HexRoundTrip(lo);
      var u := [HexDigit(hi), HexDigit(lo)];
      assert (q + t)[1..] == u + t;
      PlainPrefix(u, t);
      EscapeIs(q + t, hi, lo);
    }
  }

  lemma EscapeIs(s: string, hi: nat, lo: nat)
    requires |s| >= 3 && hi < 16 && lo < 16 && s[0] == '%' && s[1] == HexDigit(hi) && s[2] == HexDigit(lo)
    ensures "%3D" <= s <==> 16 * hi + lo == '=' as nat
    ensures "%26" <= s <==> 16 * hi + lo == '&' as nat
  {
    assert HexDigit(3) == '3' && HexDigit(13) == 'D' && HexDigit(2) == '2' && HexDigit(6) == '6';
    HexRoundTrip(hi);
    HexRoundTrip(lo);
  }

  // --- a link too long for the referrer ---

  /** What is left of a link when its encoding is cut to `room` characters: whole characters, then a broken escape. */
  function Left(path: string, room: nat): string {
    if path == [] then []
    else
      var q := QuoteChar(path[0]);
      if |q| <= room then [path[0]] + Left(path[1..], room - |q|) else q[..room]
  }

  lemma CutQuoteStep(path: string, room: nat)
    requires path != []
    ensures var q := QuoteChar(path[0]);
            Cut(Quote(path), room) == if |q| <= room then q + Cut(Quote(path[1..]), room - |q|) else q[..room]
  {
    var q := QuoteChar(path[0]);
    if |q| <= room { CutConcat(q, Quote(path[1..]), room); } else { assert Quote(path)[..room] == q[..room]; }
  }

  /** A broken escape reads as itself. */
  lemma BrokenEscape(c: char, n: nat)
    requires n < |QuoteChar(c)|
    ensures var t := QuoteChar(c)[..n];
            Unquote(t) == t && !LooksEncoded(t) && '+' !in t && '&' !in t && '=' !in t && n <= 2
  {
    HexRoundTrip(c as nat / 16 % 16);
    HexRoundTrip(c as nat % 16);
    var t := QuoteChar(c)[..n];
    forall i: nat ensures !EscapeAt(t, i) { }
    UnquoteShortens(t);
    TooShortToLook(t);
  }

  lemma {:induction false} TooShortToLook(t: string)
    requires |t| < 3
    ensures !LooksEncoded(t)
  {
    if t != [] { TooShortToLook(t[1..]); }
  }

  /** The cut encoding decodes to what is left of the link; and it looks encoded just when that has a '=' or '&'. */
  lemma {:induction false} CutQuoteReads(path: string, room: nat)
    requires IsBytes(path)
    ensures Unquote(Cut(Quote(path), room)) == Left(path, room)
  {
    if path != [] {
      var c, rest := path[0], path[1..];
      var q := QuoteChar(c);
      CutQuoteStep(path, room);
      if |q| <= room {
        CutQuoteReads(rest, room - |q|);
        UnquoteOne(c, Cut(Quote(rest), room - |q|));
      } else {
        BrokenEscape(c, room);
      }
    }
  }

  lemma {:induction false} CutQuoteLooks(path: string, room: nat)
    requires IsBytes(path)
    ensures LooksEncoded(Cut(Quote(path), room)) <==> '=' in Left(path, room) || '&' in Left(path, room)
  {
    if path != [] {
      var c, rest := path[0], path[1..];
      var q := QuoteChar(c);
      CutQuoteStep(path, room);
      if |q| <= room {
        CutQuoteLooks(rest, room - |q|);
        EncodedCharLooks(c, Cut(Quote(rest), room - |q|));
      } else {
        BrokenEscape(c, room);
      }
    }
  }

  lemma CutQuoteIsPlain(path: string, room: nat)
    ensures '+' !in Cut(Quote(path), room) && '&' !in Cut(Quote(path), room)
    ensures path != [] && room > 0 ==> Cut(Quote(path), room) != [] && Left(path, room) != []
  {
    QuoteIsAscii(path);
    QuoteIsPlusFree(path);
  }

  /** `left` is `j` whole characters of the link, then at most two of a broken escape. */
  ghost predicate Shaped(path: string, left: string, j: nat) {
    && j <= |path| && j <= |left| <= j + 2 && left[..j] == path[..j] && (j < |left| ==> j < |path|)
    && forall i | j <= i < |left| :: left[i] != '+' && left[i] != '&' && left[i] != '='
  }

  lemma ShapedCons(c: char, rest: string, left: string, i: nat)
    requires Shaped(rest, left, i)
    ensures Shaped([c] + rest, [c] + left, i + 1)
  {
    assert ([c] + left)[..i + 1] == [c] + left[..i] && ([c] + rest)[..i + 1] == [c] + rest[..i];
    forall n | i + 1 <= n < |[c] + left| ensures ([c] + left)[n] == left[n - 1] { }
  }

  lemma {:induction false} LeftShape(path: string, room: nat) returns (j: nat)
    ensures Shaped(path, Left(path, room), j)
  {
    j := 0;
    if path != [] {
      var c, rest := path[0], path[1..];
      var q := QuoteChar(c);
      if |q| <= room {
        var i := LeftShape(rest, room - |q|);
        j := i + 1;
        ShapedCons(c, rest, Left(rest, room - |q|), i);
        assert path == [c] + rest;
      } else {
        BrokenEscape(c, room);
      }
    }
  }

  lemma {:induction false} LeftFits(path: string, room: nat)
    requires |Quote(path)| <= room
    ensures Left(path, room) == path
  {
    if path != [] {
      LeftFits(path[1..], room - |QuoteChar(path[0])|);
      assert path == [path[0]] + path[1..];
    }
  }

  /**
    The link ends in the percent sign, or the percent sign and a `2`, that the cut leaves of that sign's own
    escape.
   */
  predicate EndsInItsEscape(path: string, room: nat) { EndsCut(path, room, "%") || EndsCut(path, room, "%2") }

  /** The link ends in `tail`, and the cut leaves as many characters after what is before it. */
  predicate EndsCut(path: string, room: nat, tail: string) {
    && |tail| <= |path| && path[|path| - |tail|..] == tail
    && |Quote(path[..|path| - |tail|])| + |tail| == room
  }

  lemma EndsCutCons(c: char, rest: string, room: nat, tail: string)
    requires |QuoteChar(c)| <= room && |tail| <= |rest|
    ensures EndsCut([c] + rest, room, tail) <==> EndsCut(rest, room - |QuoteChar(c)|, tail)
  {
    var path, n := [c] + rest, |rest| - |tail|;
    assert path[|path| - |tail|..] == rest[n..] && path[..|path| - |tail|] == [c] + rest[..n];
    assert Quote([c] + rest[..n]) == QuoteChar(c) + Quote(rest[..n]);
  }

  lemma EndsInItsEscapeCons(c: char, rest: string, room: nat)
    requires |QuoteChar(c)| <= room && |rest| >= 1 && |Quote(rest)| > room - |QuoteChar(c)|
    ensures EndsInItsEscape([c] + rest, room) <==> EndsInItsEscape(rest, room - |QuoteChar(c)|)
  {
    EndsCutCons(c, rest, room, "%");
    if |rest| >= 2 { EndsCutCons(c, rest, room, "%2"); }
  }

  /**
    The whole link is left exactly when its encoding fits, or is cut where what is left of a last percent
    sign's escape reads as the end of the link.
   */
  lemma {:induction false} LeftIsWholeIff(path: string, room: nat)
    requires IsBytes(path)
    ensures Left(path, room) == path <==> |Quote(path)| <= room || EndsInItsEscape(path, room)
  {
    if |Quote(path)| <= room {
      LeftFits(path, room);
    } else {
      var c, rest := path[0], path[1..];
      var q := QuoteChar(c);
      assert path == [c] + rest;
      if |q| <= room {
        LeftIsWholeIff(rest, room - |q|);
        if rest != [] { EndsInItsEscapeCons(c, rest, room); }
        assert Left(path, room) == path <==> Left(rest, room - |q|) == rest;
      } else {
        CutInFirstEscape(path, room);
      }
    }
  }

  /** The first character is escaped, so any of the link that includes it takes three. */
  lemma EscapedFirst(path: string, n: nat)
    requires n <= |path| && path != [] && !Unreserved(path[0])
    ensures n == 0 ==> Quote(path[..n]) == []
    ensures n > 0 ==> |Quote(path[..n])| >= 3
  {
  }

  lemma EndsCutFirst(path: string, room: nat, tail: string)
    requires path != [] && !Unreserved(path[0]) && room < 3
    ensures EndsCut(path, room, tail) <==> path == tail && room == |tail|
  {
    if |tail| <= |path| {
      EscapedFirst(path, |path| - |tail|);
      if |tail| == |path| { assert path[0..] == path; }
    }
  }

  lemma CutInFirstEscape(path: string, room: nat)
    requires IsBytes(path) && path != [] && room < |QuoteChar(path[0])|
    ensures QuoteChar(path[0])[..room] == path <==> EndsInItsEscape(path, room)
  {
    var t := QuoteChar(path[0])[..room];
    if room > 0 {
      assert QuoteChar('%') == "%25" by { assert HexDigit(2) == '2' && HexDigit(5) == '5'; }
      assert t[0] == '%' && |t| == room && (|t| == 2 && path[0] == '%' ==> t[1] == '2');
      EndsCutFirst(path, room, "%");
      EndsCutFirst(path, room, "%2");
    }
  }

  /** The text the parser finds in the link's field. */
  function LinkText(path: string, room: nat): string {
    var left := Left(path, room);
    if '=' in left || '&' in left then left else Cut(Quote(path), room)
  }

  lemma CutLinkText(path: string, room: nat)
    requires IsBytes(path)
    ensures var c := Cut(Quote(path), room); LinkText(path, room) == if LooksEncoded(c) then Unquote(c) else c
  {
    CutQuoteReads(path, room);
    CutQuoteLooks(path, room);
  }

  lemma DecodedUpFront(before: string, path: string)
    requires '%' !in before && IsBytes(path) && |before| <= MAX_REFERRER_LENGTH
    ensures Candidate(before + Quote(path)) == before + LinkText(path, MAX_REFERRER_LENGTH - |before|)
  {
    var room := MAX_REFERRER_LENGTH - |before|;
    var c := Cut(Quote(path), room);
    CutConcat(before, Quote(path), MAX_REFERRER_LENGTH);
    CutLinkText(path, room);
    CandidateAfter(before + Quote(path), before, c);
  }

  lemma CandidateAfter(r: string, before: string, c: string)
    requires '%' !in before && Cut(r, MAX_REFERRER_LENGTH) == before + c
    ensures Candidate(r) == before + if LooksEncoded(c) then Unquote(c) else c
  {
    PlainPrefix(before, c);
    UnquotePrefix(before, c);
  }

  /** Characters left for the link after our own parameter and the link's name. */
  function RoomFor(idKey: string, linkKey: string, id: string): int {
    MAX_REFERRER_LENGTH - (|idKey| + |id| + |linkKey| + 3)
  }

  /** What the parser splits. */
  lemma CandidateOfPrinted(idKey: string, linkKey: string, id: string, path: string)
    requires IsPlain(idKey) && IsPlain(linkKey) && IsPlain(id) && IsBytes(path) && path != []
    requires RoomFor(idKey, linkKey, id) >= 0
    ensures Fields(Candidate(PrintedUnder(idKey, linkKey, id, path)))
            == [Field(idKey, id)] + Fields(Field(linkKey, LinkText(path, RoomFor(idKey, linkKey, id))))
  {
    var first := Field(idKey, id);
    var before := first + "&" + (linkKey + "=");
    var value := LinkText(path, RoomFor(idKey, linkKey, id));
    PlainText(id);
    PlainText(linkKey);
    PlainField(idKey, id);
    SplitPrinted(first, linkKey, Quote(path));
    SplitPrinted(first, linkKey, value);
    DecodedUpFront(before, path);
    OneField(first);
    FieldsConcat(first, Field(linkKey, value));
  }

  lemma SplitPrinted(first: string, linkKey: string, value: string)
    ensures first + ("&" + Field(linkKey, value)) == first + "&" + Field(linkKey, value)
    ensures first + "&" + (linkKey + "=") + value == first + "&" + Field(linkKey, value)
  {
  }

  /** A field under another key does not matter. */
  lemma {:induction false} FirstValueSkips(first: string, rest: seq<string>, keys: seq<string>)
    requires ReadField(first).Some? && ReadField(first).value.0 !in keys
    ensures FirstValue([first] + rest, keys) == FirstValue(rest, keys)
  {
    if keys != [] {
      assert ([first] + rest)[1..] == rest && keys[0] in keys;
      FirstValueSkips(first, rest, keys[1..]);
    }
  }

  lemma ReadLink(key: string, value: string, keys: seq<string>)
    requires IsPlain(key) && value != [] && '&' !in value && keys != [] && keys[0] == key
    ensures FirstValue(Fields(Field(key, value)), keys) == Some(UnquotePlus(value))
  {
    PlainText(key);
    ReadPlainField(key, value);
    OneField(Field(key, value));
  }

  lemma {:induction false} FirstValueIsShort(fields: seq<string>, keys: seq<string>, n: nat)
    requires forall k | k in keys :: Lookup(fields, k).Some? ==> |Lookup(fields, k).value| < n
    ensures FirstValue(fields, keys).Some? ==> |FirstValue(fields, keys).value| < n
  {
    if keys != [] { FirstValueIsShort(fields, keys[1..], n); }
  }

  lemma {:induction false} FieldsPrefix(a: string, s: string)
    requires '&' !in a
    ensures Fields(a + s) == [a + Fields(s)[0]] + Fields(s)[1..]
  {
    if a == [] {
      assert a + s == s && a + Fields(s)[0] == Fields(s)[0];
    } else {
      assert (a + s)[1..] == a[1..] + s && a[0] in a;
      FieldsPrefix(a[1..], s);
      assert [a[0]] + (a[1..] + Fields(s)[0]) == a + Fields(s)[0];
    }
  }

  lemma ReadIsShort(key: string, piece: string)
    requires '=' !in key
    ensures var p := ReadField(Field(key, piece)); p.Some? ==> |p.value.1| <= |piece|
  {
    FirstEqualsIs(key, piece);
    assert Field(key, piece)[|key| + 1..] == piece;
  }

  lemma {:induction false} FirstFieldEndsAt(s: string, n: nat)
    requires n <= |s| && '&' in s[..n]
    ensures |Fields(s)[0]| < n
  {
    if s[0] != '&' {
      assert s[..n] == [s[0]] + s[1..][..n - 1];
      FirstFieldEndsAt(s[1..], n - 1);
    }
  }

  /** A value is at least two characters shorter than its field, when its name is not empty. */
  lemma {:induction false} LookupIsShorter(fields: seq<string>, key: string, n: nat)
    requires key != [] && forall f | f in fields :: |f| <= n
    ensures Lookup(fields, key).Some? ==> |Lookup(fields, key).value| < n
  {
    if fields != [] {
      LookupIsShorter(fields[1..], key, n);
      var f := fields[0];
      if FirstEquals(f) == 0 { assert f[..0] == []; }
    }
  }

  /** A link left with an ampersand is split at it: whatever is read is shorter than the link. */
  lemma SplitLinkIsShort(key: string, left: string, keys: seq<string>, j: nat, n: nat)
    requires IsPlain(key) && j <= |left| && '&' in left[..j] && j <= n && |left| <= n + 1
    requires forall k | k in keys :: k != []
    ensures var v := FirstValue(Fields(Field(key, left)), keys); v.Some? ==> |v.value| < n
  {
    PlainText(key);
    FieldsPrefix(key + "=", left);
    FieldsAreShort(left);
    FirstFieldEndsAt(left, j);
    assert '&' in left;
    var piece, rest := Fields(left)[0], Fields(left)[1..];
    assert forall f | f in rest :: f in Fields(left);
    ReadIsShort(key, piece);
    forall k | k in keys
      ensures var v := Lookup([Field(key, piece)] + rest, k); v.Some? ==> |v.value| < n
    {
      assert ([Field(key, piece)] + rest)[1..] == rest;
      LookupIsShorter(rest, k, n);
    }
    FirstValueIsShort([Field(key, piece)] + rest, keys, n);
  }

  /** What the parser reads for the link: decided by what is left of it. */
  lemma LinkReadsAs(key: string, path: string, room: nat, keys: seq<string>)
    requires IsPlain(key) && IsBytes(path) && path != [] && room > 0
    requires keys != [] && keys[0] == key && forall k | k in keys :: k != []
    ensures var left, v := Left(path, room), FirstValue(Fields(Field(key, LinkText(path, room))), keys);
            if '&' in left then v.Some? ==> |v.value| < |path|
            else v == Some(if '=' in left then UnquotePlus(left) else left)
  {
    var left := Left(path, room);
    CutQuoteIsPlain(path, room);
    CutQuoteReads(path, room);
    if '&' in left {
      var j := LeftShape(path, room);
      assert '&' in left[..j] by {
        var i :| 0 <= i < |left| && left[i] == '&';
        assert i < j && left[..j][i] == '&';
      }
      SplitLinkIsShort(key, left, keys, j, |path|);
    } else if '=' in left {
      ReadLink(key, left, keys);
    } else {
      ReadLink(key, Cut(Quote(path), room), keys);
      PlusFree(Cut(Quote(path), room));
    }
  }

  /** Every escape decoded makes the text two characters shorter. */
  lemma {:induction false} UnquoteByTwos(s: string) returns (n: nat)
    ensures |s| == |Unquote(s)| + 2 * n
  {
    n := 0;
    if s != [] {
      if EscapeAt(s, 0) {
        var m := UnquoteByTwos(s[3..]);
        n := m + 1;
      } else {
        n := UnquoteByTwos(s[1..]);
      }
    }
  }

  /** Decoding text at most one longer into a given length means there was nothing to decode. */
  lemma NothingDecoded(text: string, n: nat)
    requires |Unquote(text)| == n && |text| <= n + 1
    ensures Unquote(text) == text
  {
    var twos := UnquoteByTwos(text);
    UnquoteShortens(text);
  }

  lemma SameButSpaces(left: string, path: string, j: nat)
    requires j <= |left| == |path| && left[..j] == path[..j] && PlusToSpace(left) == path
    requires forall i | j <= i < |left| :: left[i] != '+'
    ensures left == path
  {
    forall i | 0 <= i < |left| ensures left[i] == path[i] {
      if i < j { assert left[i] == left[..j][i] && path[i] == path[..j][i]; }
    }
  }

  /** Decoding what is left can give the whole link only if nothing was cut. */
  lemma OnlyWhole(path: string, room: nat, spaced: bool)
    requires var left := Left(path, room); Unquote(if spaced then UnquotePlus(left) else left) == path
    ensures Left(path, room) == path
  {
    var left := Left(path, room);
    var j := LeftShape(path, room);
    if spaced {
      var once := UnquotePlus(left);
      NothingDecoded(once, |path|);
      NothingDecoded(PlusToSpace(left), |path|);
      SameButSpaces(left, path, j);
    } else {
      NothingDecoded(left, |path|);
    }
  }

  /** The link as read, decoded once more, is the one written: exactly when it fits and nothing in it can be misread. */
  lemma LinkReadIff(key: string, path: string, room: nat, keys: seq<string>)
    requires IsPlain(key) && IsBytes(path) && path != [] && room > 0
    requires keys != [] && keys[0] == key && forall k | k in keys :: k != []
    ensures var v := FirstValue(Fields(Field(key, LinkText(path, room))), keys);
            (v.Some? && Unquote(v.value) == path)
            <==> Left(path, room) == path && !HasEscape(path) && '&' !in path && !('+' in path && '=' in path)
  {
    var left := Left(path, room);
    LinkReadsAs(key, path, room, keys);
    if '&' !in left {
      var spaced := '=' in left;
      if Unquote(if spaced then UnquotePlus(left) else left) == path { OnlyWhole(path, room, spaced); }
      DecodedTwiceIff(path);
      UnquoteShortens(path);
    }
  }

  lemma LinkUnderKeysIff(idKey: string, linkKey: string, id: string, path: string, keys: seq<string>)
    requires IsPlain(idKey) && IsPlain(linkKey) && IsPlain(id) && IsBytes(path) && path != []
    requires keys != [] && keys[0] == linkKey && idKey !in keys && forall k | k in keys :: k != []
    requires RoomFor(idKey, linkKey, id) > 0
    ensures var room := RoomFor(idKey, linkKey, id);
            var fields := Fields(Candidate(PrintedUnder(idKey, linkKey, id, path)));
            && FirstValue(fields, keys) == FirstValue(Fields(Field(linkKey, LinkText(path, room))), keys)
            && (DeepLinkIn(fields, keys) == Some(path)
                <==> Left(path, room) == path && !HasEscape(path) && '&' !in path && !('+' in path && '=' in path))
  {
    var room := RoomFor(idKey, linkKey, id);
    CandidateOfPrinted(idKey, linkKey, id, path);
    PlainField(idKey, id);
    FirstValueSkips(Field(idKey, id), Fields(Field(linkKey, LinkText(path, room))), keys);
    LinkReadIff(linkKey, path, room, keys);
  }

  lemma KeysArePlain()
    ensures IsPlain("utm_content") && IsPlain("deep_link")
    ensures DEEP_LINK_KEYS[0] == "deep_link" && "utm_content" !in DEEP_LINK_KEYS
    ensures forall k | k in DEEP_LINK_KEYS :: k != []
  {
  }

  lemma ParseFinds(referrer: string)
    ensures referrer != [] ==> Parse(referrer).deepLink == DeepLinkIn(Fields(Candidate(referrer)), DEEP_LINK_KEYS)
    ensures referrer == [] ==> Parse(referrer).deepLink == None
  {
  }

  /** Characters the referrer leaves for the encoded link. */
  const ROOM: nat := 1989

  lemma Room(id: string)
    requires |id| == 36
    ensures RoomFor("utm_content", "deep_link", id) == ROOM
  {
  }

  /**
    A deep link comes back unchanged exactly when its encoding fits, or is cut inside the escape of a last
    percent sign that the link spells the start of, and it has no percent escape, no ampersand, and not
    both a plus sign and an equals sign.
   */
  lemma DeepLinkComesBackIff(h: string, path: string)
    requires IsClickId(h) && IsBytes(path) && path != []
    ensures Parse(Printed(Hyphenated(h), path)).deepLink == Some(path)
            <==> (|Quote(path)| <= ROOM || EndsInItsEscape(path, ROOM))
                 && !HasEscape(path) && '&' !in path && !('+' in path && '=' in path)
  {
    LeftIsWholeIff(path, ROOM);
    ClickIdIsPlain(h);
    HyphenatedChars(h);
    KeysArePlain();
    Room(Hyphenated(h));
    ParseFinds(Printed(Hyphenated(h), path));
    LinkUnderKeysIff("utm_content", "deep_link", Hyphenated(h), path, DEEP_LINK_KEYS);
  }

  /**
    However long it is, a deep link comes back as what is left of it, decoded once more, and shorter if that
    has an ampersand.
   */
  lemma DeepLinkReadsAs(h: string, path: string)
    requires IsClickId(h) && IsBytes(path) && path != []
    ensures var left, link := Left(path, ROOM), Parse(Printed(Hyphenated(h), path)).deepLink;
            if '&' in left then link.Some? ==> |link.value| < |path|
            else link == Some(Unquote(if '=' in left then UnquotePlus(left) else left))
  {
    ClickIdIsPlain(h);
    HyphenatedChars(h);
    KeysArePlain();
    Room(Hyphenated(h));
    ParseFinds(Printed(Hyphenated(h), path));
    LinkUnderKeysIff("utm_content", "deep_link", Hyphenated(h), path, DEEP_LINK_KEYS);
    LinkReadsAs("deep_link", path, ROOM, DEEP_LINK_KEYS);
  }

  lemma EncodedCandidate(idKey: string, linkKey: string, id: string, path: string)
    requires IsPlain(idKey) && IsPlain(linkKey) && IsPlain(id) && IsBytes(path) && path != []
    requires RoomFor(idKey, linkKey, id) >= 6
    ensures Candidate(QuotePlus(PrintedUnder(idKey, linkKey, id, path)))
            == Field(idKey, id) + "&" + Field(linkKey, Left(Quote(path), RoomFor(idKey, linkKey, id) - 6))
  {
    var r, first := PrintedUnder(idKey, linkKey, id, path), Field(idKey, id);
    var before, room := first + "&" + (linkKey + "="), RoomFor(idKey, linkKey, id) - 6;
    PlainText(id);
    PrintedIsAscii(idKey, linkKey, id, path);
    NoSpacesNoPlus(r);
    SplitPrinted(first, linkKey, Quote(path));
    SplitPrinted(first, linkKey, Left(Quote(path), room));
    QuoteConcat(before, Quote(path));
    EncodedBefore(idKey, linkKey, id, Cut(Quote(Quote(path)), room));
    CutConcat(Quote(before), Quote(Quote(path)), MAX_REFERRER_LENGTH);
    QuoteIsAscii(path);
    CutQuoteReads(Quote(path), room);
    UnquoteQuote(before, Cut(Quote(Quote(path)), room));
  }

  lemma EncodedBefore(idKey: string, linkKey: string, id: string, t: string)
    requires IsPlain(idKey) && IsPlain(linkKey) && IsPlain(id)
    ensures var before := Field(idKey, id) + "&" + (linkKey + "=");
            LooksEncoded(Quote(before) + t) && |Quote(before)| == |before| + 6 && IsBytes(before)
  {
    var head, name := Field(idKey, id) + "&", linkKey + "=";
    EncodedName(linkKey);
    EncodedHead(idKey, id, Quote(name) + t);
    QuoteConcat(head, name);
    Associates(Quote(head), Quote(name), t);
    PlainBytes(idKey, id);
  }

  lemma EncodedName(key: string)
    requires IsPlain(key)
    ensures |Quote(key + "=")| == |key| + 3 && IsBytes(key + "=")
  {
    EncodedMarks();
    PlainText(key);
    QuoteConcat(key, "=");
  }

  /**
    Encoded once more on its way, a deep link of any length comes back as what is left of its encoding,
    decoded twice.
   */
  lemma EncodedDeepLinkReadsAs(h: string, path: string)
    requires IsClickId(h) && IsBytes(path) && path != []
    ensures Parse(QuotePlus(Printed(Hyphenated(h), path))).deepLink
              == Some(Unquote(Unquote(Left(Quote(path), ROOM - 6))))
  {
    var id := Hyphenated(h);
    ClickIdIsPlain(h);
    HyphenatedChars(h);
    KeysArePlain();
    Room(id);
    ParseFinds(QuotePlus(Printed(id, path)));
    EncodedCandidate("utm_content", "deep_link", id, path);
    EncodedLinkText("utm_content", "deep_link", id, path, ROOM - 6, DEEP_LINK_KEYS);
  }

  lemma EncodedLinkText(idKey: string, linkKey: string, id: string, path: string, room: nat, keys: seq<string>)
    requires IsPlain(idKey) && IsPlain(linkKey) && IsPlain(id) && path != [] && room > 0
    requires keys != [] && keys[0] == linkKey && idKey !in keys
    ensures DeepLinkIn(Fields(Field(idKey, id) + "&" + Field(linkKey, Left(Quote(path), room))), keys)
            == Some(Unquote(Unquote(Left(Quote(path), room))))
  {
    var text, first := Left(Quote(path), room), Field(idKey, id);
    LeftOfEncoded(path, room);
    PlainField(idKey, id);
    OneField(first);
    FieldsConcat(first, Field(linkKey, text));
    FirstValueSkips(first, Fields(Field(linkKey, text)), keys);
    ReadLink(linkKey, text, keys);
    PlusFree(text);
  }

  lemma LeftOfEncoded(path: string, room: nat)
    requires path != [] && room > 0
    ensures var text := Left(Quote(path), room); text != [] && '&' !in text && '+' !in text
  {
    var text := Left(Quote(path), room);
    QuoteIsAscii(path);
    QuoteIsPlusFree(path);
    CutQuoteIsPlain(Quote(path), room);
    var j := LeftShape(Quote(path), room);
    forall i | 0 <= i < |text| ensures text[i] != '&' && text[i] != '+' {
      if i < j { assert text[i] == text[..j][i] == Quote(path)[..j][i] && Quote(path)[i] in Quote(path); }
    }
  }

  /** Cutting an encoding costs at most a broken escape, so what is left decodes to at most one character more. */
  lemma {:induction false} EncodedLeftIsShort(path: string, room: nat)
    ensures |Unquote(Left(Quote(path), room))| <= |path| + 1
  {
    if path != [] {
      var c, rest := path[0], path[1..];
      var q, more := QuoteChar(c), Quote(rest);
      assert Quote(path) == q + more;
      if |q| == 1 {
        assert (q + more)[1..] == more && QuoteChar(c) == [c];
        if room >= 1 {
          EncodedLeftIsShort(rest, room - 1);
          assert ([c] + Left(more, room - 1))[1..] == Left(more, room - 1);
        }
      } else {
        EncodedEscapeLeft(c, more, room);
        if room >= 5 {
          EncodedLeftIsShort(rest, room - 5);
          EscapeDecodes(q, Left(more, room - 5));
        }
      }
    }
  }

  lemma EscapeDecodes(q: string, t: string)
    requires |q| == 3 && EscapeAt(q, 0)
    ensures |Unquote(q + t)| == 1 + |Unquote(t)|
  {
    assert EscapeAt(q + t, 0) && (q + t)[3..] == t;
  }

  /** An escape is encoded as five characters: its percent sign as three, its digits as themselves. */
  lemma EncodedEscapeLeft(c: char, more: string, room: nat)
    requires !Unreserved(c)
    ensures var q := QuoteChar(c);
            && EscapeAt(q, 0)
            && Left(q + more, room) == if room >= 5 then q + Left(more, room - 5)
                                       else if room == 4 then q[..2] else if room == 3 then q[..1]
                                       else QuoteChar('%')[..room]
  {
    var q := QuoteChar(c);
    HexRoundTrip(c as nat / 16 % 16);
    HexRoundTrip(c as nat % 16);
    var x, y := q[1], q[2];
    assert Unreserved(x) && Unreserved(y) && |QuoteChar('%')| == 3;
    assert q + more == ['%'] + ([x] + ([y] + more));
    assert ([y] + more)[1..] == more && ([x] + ([y] + more))[1..] == [y] + more;
    assert (['%'] + ([x] + ([y] + more)))[1..] == [x] + ([y] + more);
    if room >= 3 {
      assert Left(q + more, room) == ['%'] + Left([x] + ([y] + more), room - 3);
      if room >= 4 {
        assert Left([x] + ([y] + more), room - 3) == [x] + Left([y] + more, room - 4);
        if room >= 5 { assert Left([y] + more, room - 4) == [y] + Left(more, room - 5); }
      }
    }
  }

  function QuoteTwice(s: string): string { Quote(Quote(s)) }

  lemma QuoteTwiceCons(c: char, rest: string)
    ensures QuoteTwice([c] + rest) == Quote(QuoteChar(c)) + QuoteTwice(rest)
    ensures |Quote(QuoteChar(c))| == if Unreserved(c) then 1 else 5
  {
    assert Quote([c] + rest) == QuoteChar(c) + Quote(rest);
    QuoteConcat(QuoteChar(c), Quote(rest));
    if Unreserved(c) {
      assert Quote([c]) == QuoteChar(c) + Quote([]);
    } else {
      EncodedEscapeIsFive(c);
    }
  }

  lemma EncodedEscapeIsFive(c: char)
    requires !Unreserved(c)
    ensures |Quote(QuoteChar(c))| == 5
  {
    var q := QuoteChar(c);
    HexRoundTrip(c as nat / 16 % 16);
    HexRoundTrip(c as nat % 16);
    var x, y := q[1], q[2];
    assert q == ['%'] + [x, y] && Unreserved(x) && Unreserved(y);
    QuoteConcat(['%'], [x, y]);
    QuoteConcat([x], [y]);
    assert [x] + [y] == [x, y];
    assert Quote(['%']) == QuoteChar('%') + Quote([]) && Quote([x]) == [x] + Quote([]) && Quote([y]) == [y] + Quote([]);
  }

  /** As `EndsInItsEscape`, for a link encoded twice. */
  predicate EndsInItsEncodedEscape(path: string, room: nat) { CutAt(path, room, "%") || CutAt(path, room, "%2") }

  /**
    The link ends in `tail`, and the cut leaves one or two characters, or the three of a percent sign for the
    first.
   */
  predicate CutAt(path: string, room: nat, tail: string) {
    && |tail| <= |path| && path[|path| - |tail|..] == tail
    && room - |QuoteTwice(path[..|path| - |tail|])| in {|tail|, |tail| + 2}
  }

  lemma CutAtCons(c: char, rest: string, room: nat, width: nat, tail: string)
    requires width == |Quote(QuoteChar(c))| <= room && |tail| <= |rest|
    ensures CutAt([c] + rest, room, tail) <==> CutAt(rest, room - width, tail)
  {
    var path, n := [c] + rest, |rest| - |tail|;
    assert path[|path| - |tail|..] == rest[n..] && path[..|path| - |tail|] == [c] + rest[..n];
    QuoteTwiceCons(c, rest[..n]);
  }

  lemma EndsEncodedCons(c: char, rest: string, room: nat, width: nat)
    requires width == |Quote(QuoteChar(c))| <= room && |rest| >= 1 && |QuoteTwice(rest)| > room - width
    ensures EndsInItsEncodedEscape([c] + rest, room) <==> EndsInItsEncodedEscape(rest, room - width)
  {
    CutAtCons(c, rest, room, width, "%");
    if |rest| >= 2 {
      CutAtCons(c, rest, room, width, "%2");
    } else if CutAt([c] + rest, room, "%2") {
      assert [c] + rest == "%2" && ([c] + rest)[..0] == [];
      EncodedPair();
    }
  }

  lemma EncodedPair()
    ensures |Quote(QuoteChar('%'))| == 5 && |QuoteTwice("2")| == 1
  {
    QuoteTwiceCons('%', []);
    QuoteTwiceCons('2', []);
    assert ['2'] + [] == "2" && QuoteTwice([]) == [];
  }

  /** One whole character in front decodes to itself. */
  lemma EncodedLeftCons(c: char, rest: string, room: nat, width: nat)
    requires c < 256 as char && width == |Quote(QuoteChar(c))| <= room
    ensures Unquote(Left(Quote([c] + rest), room)) == [c] + Unquote(Left(Quote(rest), room - width))
  {
    var q, more := QuoteChar(c), Quote(rest);
    QuoteTwiceCons(c, rest);
    assert Quote([c] + rest) == q + more;
    if Unreserved(c) {
      assert (q + more)[1..] == more;
      assert Left(q + more, room) == q + Left(more, room - 1);
    } else {
      EncodedEscapeLeft(c, more, room);
    }
    UnquoteOne(c, Left(more, room - width));
  }

  lemma EncodedFirst(path: string, n: nat)
    requires n <= |path| && path != [] && !Unreserved(path[0])
    ensures n == 0 ==> QuoteTwice(path[..n]) == []
    ensures n > 0 ==> |QuoteTwice(path[..n])| >= 5
  {
    if n > 0 {
      QuoteTwiceCons(path[0], path[1..n]);
      assert path[..n] == [path[0]] + path[1..n];
    }
  }

  lemma ShortIsItself(t: string)
    requires |t| < 3
    ensures Unquote(t) == t
  {
    forall i: nat ensures !EscapeAt(t, i) { }
    UnquoteShortens(t);
  }

  /** Cut inside its encoded escape, a character leaves a percent sign, or that and a hex digit. */
  lemma FirstLeft(c: char, more: string, room: nat)
    requires !Unreserved(c) && 0 < room < 5
    ensures var t := Left(QuoteChar(c) + more, room);
            && Unquote(t) == t && |t| == (if room % 2 == 0 then 2 else 1)
            && t[0] == '%' && (|t| == 2 && c == '%' ==> t[1] == '2')
  {
    EncodedEscapeLeft(c, more, room);
    assert QuoteChar('%') == "%25" by { assert HexDigit(2) == '2' && HexDigit(5) == '5'; }
    ShortIsItself(Left(QuoteChar(c) + more, room));
  }

  lemma CutAtFirst(path: string, room: nat, tail: string)
    requires path != [] && !Unreserved(path[0]) && room < 5
    ensures CutAt(path, room, tail) <==> path == tail && room in {|tail|, |tail| + 2}
  {
    if |tail| <= |path| {
      EncodedFirst(path, |path| - |tail|);
      if |tail| == |path| { assert path[0..] == path; }
    }
  }

  lemma CutInFirstEncodedEscape(path: string, room: nat)
    requires IsBytes(path) && path != [] && room < |Quote(QuoteChar(path[0]))|
    ensures Unquote(Left(Quote(path), room)) == path <==> EndsInItsEncodedEscape(path, room)
  {
    var c := path[0];
    var t := Left(Quote(path), room);
    QuoteTwiceCons(c, path[1..]);
    if room == 0 {
      assert t == [];
    } else {
      FirstLeft(c, Quote(path[1..]), room);
      CutAtFirst(path, room, "%");
      CutAtFirst(path, room, "%2");
    }
  }

  /** What is left of a twice-encoded link decodes to it exactly when it fits, or is cut in its last escape so. */
  lemma {:induction false} EncodedLeftIsWholeIff(path: string, room: nat)
    requires IsBytes(path)
    ensures Unquote(Left(Quote(path), room)) == path
            <==> |QuoteTwice(path)| <= room || EndsInItsEncodedEscape(path, room)
  {
    if |QuoteTwice(path)| <= room {
      LeftFits(Quote(path), room);
      UnquoteQuote(path, []);
      assert Quote(path) + [] == Quote(path) && path + [] == path;
    } else {
      var c, rest := path[0], path[1..];
      var width := |Quote(QuoteChar(c))|;
      assert path == [c] + rest;
      QuoteTwiceCons(c, rest);
      if width <= room {
        EncodedLeftIsWholeIff(rest, room - width);
        if rest != [] { EndsEncodedCons(c, rest, room, width); }
        EncodedLeftCons(c, rest, room, width);
      } else {
        CutInFirstEncodedEscape(path, room);
      }
    }
  }

  /**
    Encoded once more on its way, a deep link comes back unchanged exactly when the second encoding fits,
    or is cut inside the escape of a last percent sign that the link spells the start of, and it has no
    percent escape.
   */
  lemma EncodedDeepLinkComesBackIff(h: string, path: string)
    requires IsClickId(h) && IsBytes(path) && path != []
    ensures Parse(QuotePlus(Printed(Hyphenated(h), path))).deepLink == Some(path)
            <==> (|QuoteTwice(path)| <= ROOM - 6 || EndsInItsEncodedEscape(path, ROOM - 6)) && !HasEscape(path)
  {
    var once := Unquote(Left(Quote(path), ROOM - 6));
    EncodedDeepLinkReadsAs(h, path);
    EncodedLeftIsShort(path, ROOM - 6);
    EncodedLeftIsWholeIff(path, ROOM - 6);
    if Unquote(once) == path { NothingDecoded(once, |path|); }
    UnquoteShortens(path);
  }

  // --- from the store link to the click ---

  /**
    The query of the store link, read as a form, gives the referrer and the referrer the click, whatever
    else the link carries, unless it already had a referrer of its own, which is then the one read.
   */
  lemma StoreLinkCarriesTheClick(existing: string, h: string, deepLink: string)
    requires IsClickId(h)
    ensures var read := Lookup(Fields(WithQuery(existing, "referrer", Printed(Hyphenated(h), deepLink))), "referrer");
            if Lookup(Fields(existing), "referrer").Some? then read == Lookup(Fields(existing), "referrer")
            else read.Some? && Parse(read.value).clickId == Some(h)
  {
    var r := Printed(Hyphenated(h), deepLink);
    ClickIdIsPlain(h);
    KeysArePlain();
    PrintedIsAscii("utm_content", "deep_link", Hyphenated(h), deepLink);
    assert IsBytes(r) && r != [];
    ReferrerKey();
    WithQueryAddsOne(existing, "referrer", r, "referrer");
    ClickIdComesBack(h, deepLink);
  }

  lemma ReferrerKey()
    ensures forall i | 0 <= i < |"referrer"| :: Unreserved("referrer"[i])
  {
  }

  // --- accepted destinations ---

  predicate SafeChar(c: char) {
    'a' <= c <= 'z' || 'A' <= c <= 'Z' || '0' <= c <= '9' || c in "-._~/%!$&'()*+,;=:@[]?#"
  }

  predicate DotDotAt(s: string, i: nat) {
    i + 2 <= |s| && s[i] == '.' && s[i + 1] == '.' && (i == 0 || s[i - 1] == '/') && (i + 2 == |s| || s[i + 2] == '/')
  }

  predicate FoldedAt(s: string, i: nat, w: string) { i + |w| <= |s| && Lowered(s[i..i + |w|]) == w }

  predicate Traverses(s: string) {
    exists i | 0 <= i < |s| :: DotDotAt(s, i) || FoldedAt(s, i, "%2e%2e") || FoldedAt(s, i, "%252e")
  }

  predicate Printable(s: string) {
    forall i | 0 <= i < |s| :: s[i] >= 32 as char && s[i] != 127 as char && s[i] != '\\'
  }

  predicate RelativePath(s: string) {
    s != [] && s[0] == '/' && (|s| == 1 || s[1] != '/') && forall i | 0 <= i < |s| :: SafeChar(s[i])
  }

  /** A relative path we will honour, or nothing. */
  function CleanPath(raw: Option<string>): Option<string> {
    if raw.None? then None
    else
      var s := Trim(raw.value, IsSpace);
      if |s| <= MAX_DESTINATION && Printable(s) && !Traverses(s) && RelativePath(s) then Some(s) else None
  }

  lemma SafeIsByte(c: char)
    requires SafeChar(c)
    ensures c < 256 as char
  {
  }

  lemma RelativePathIsBytes(s: string)
    requires RelativePath(s)
    ensures IsBytes(s)
  {
    forall i | 0 <= i < |s| ensures s[i] < 256 as char { SafeIsByte(s[i]); }
  }

  /** Every accepted path fits in the referrer, so it comes back exactly when nothing in it can be misread. */
  lemma AcceptedPathComesBackIff(h: string, raw: Option<string>)
    requires IsClickId(h) && CleanPath(raw).Some?
    ensures var path := CleanPath(raw).value;
            Parse(Printed(Hyphenated(h), path)).deepLink == Some(path)
            <==> !HasEscape(path) && '&' !in path && !('+' in path && '=' in path)
  {
    var path := CleanPath(raw).value;
    RelativePathIsBytes(path);
    QuoteIsAscii(path);
    DeepLinkComesBackIff(h, path);
  }
}
