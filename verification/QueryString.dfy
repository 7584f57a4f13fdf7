/** Percent-encoding and query strings, as the redirect prints them and the parser reads them. Text is
  its UTF-8 bytes, one character below 256 per byte. */
module QueryString {
  import opened Common

  predicate IsBytes(s: string) { forall i | 0 <= i < |s| :: s[i] < 256 as char }

  // --- percent encoding (section 2.1 of RFC 3986) ---

  function HexDigit(n: nat): char
    requires n < 16
  {
    if n < 10 then '0' + n as char else 'A' + (n - 10) as char
  }

  predicate IsHex(c: char) { '0' <= c <= '9' || 'a' <= c <= 'f' || 'A' <= c <= 'F' }

  function HexValue(c: char): (n: nat)
    requires IsHex(c)
    ensures n < 16
  {
    if c <= '9' then (c - '0') as nat else if c <= 'F' then (c - 'A') as nat + 10 else (c - 'a') as nat + 10
  }

  predicate Unreserved(c: char) {
    'a' <= c <= 'z' || 'A' <= c <= 'Z' || '0' <= c <= '9' || c in "_.-~"
  }

  function QuoteChar(c: char): string {
    if Unreserved(c) then [c] else ['%', HexDigit(c as nat / 16 % 16), HexDigit(c as nat % 16)]
  }

  /** Percent-encode everything that is not unreserved. */
  function Quote(s: string): string {
    if s == [] then [] else QuoteChar(s[0]) + Quote(s[1..])
  }

  /** As a form value: a space becomes a plus sign. */
  function QuotePlus(s: string): string {
    if s == [] then [] else (if s[0] == ' ' then "+" else QuoteChar(s[0])) + QuotePlus(s[1..])
  }

  predicate EscapeAt(s: string, i: nat) {
    i + 2 < |s| && s[i] == '%' && IsHex(s[i + 1]) && IsHex(s[i + 2])
  }

  /** Decode every well-formed escape; leave a stray percent sign alone. */
  function Unquote(s: string): (r: string)
    ensures |r| <= |s| && (s != [] ==> r != [])
  {
    if s == [] then []
    else if EscapeAt(s, 0) then [(16 * HexValue(s[1]) + HexValue(s[2])) as char] + Unquote(s[3..])
    else [s[0]] + Unquote(s[1..])
  }

  function PlusToSpace(s: string): (r: string)
    ensures |r| == |s| && forall i | 0 <= i < |s| :: r[i] == if s[i] == '+' then ' ' else s[i]
  {
    seq(|s|, i requires 0 <= i < |s| => if s[i] == '+' then ' ' else s[i])
  }

  function UnquotePlus(s: string): string { Unquote(PlusToSpace(s)) }

  lemma HexRoundTrip(n: nat)
    requires n < 16
    ensures IsHex(HexDigit(n)) && HexValue(HexDigit(n)) == n && HexDigit(n) !in "%+&="
  {
  }

  lemma UnquoteEscape(hi: nat, lo: nat, t: string)
    requires hi < 16 && lo < 16
    ensures Unquote(['%', HexDigit(hi), HexDigit(lo)] + t) == [(16 * hi + lo) as char] + Unquote(t)
  {
    HexRoundTrip(hi);
    HexRoundTrip(lo);
    var s := ['%', HexDigit(hi), HexDigit(lo)] + t;
    assert EscapeAt(s, 0) && s[3..] == t;
  }

  /** One encoded byte is read back whatever follows it. */
  lemma UnquoteOne(c: char, t: string)
    requires c < 256 as char
    ensures Unquote(QuoteChar(c) + t) == [c] + Unquote(t)
  {
    if Unreserved(c) {
      UnquoteLiteral(c, t);
    } else {
      var n := c as nat;
      Nibbles(n);
      UnquoteEscape(n / 16, n % 16, t);
      assert n as char == c;
    }
  }

  lemma Nibbles(n: nat)
    requires n < 256
    ensures n / 16 < 16 && n / 16 % 16 == n / 16 && 16 * (n / 16) + n % 16 == n
  {
  }

  lemma UnquoteLiteral(c: char, t: string)
    requires c != '%'
    ensures Unquote([c] + t) == [c] + Unquote(t)
  {
    assert ([c] + t)[1..] == t;
  }

  lemma QuoteCharIsPlusFree(c: char)
    ensures '+' !in QuoteChar(c)
  {
    HexRoundTrip(c as nat / 16 % 16);
    HexRoundTrip(c as nat % 16);
  }

  lemma Associates(a: string, b: string, c: string)
    ensures (a + b) + c == a + (b + c)
  {
  }

  lemma {:induction false} UnquoteQuote(s: string, t: string)
    requires IsBytes(s)
    ensures Unquote(Quote(s) + t) == s + Unquote(t)
  {
    if s == [] {
      assert Quote(s) + t == t;
    } else {
      var c, tail := s[0], s[1..];
      Associates(QuoteChar(c), Quote(tail), t);
      UnquoteOne(c, Quote(tail) + t);
      UnquoteQuote(tail, t);
      Associates([c], tail, Unquote(t));
      assert s == [c] + tail;
    }
  }

  lemma {:induction false} QuoteIsPlusFree(s: string)
    ensures '+' !in Quote(s)
  {
    if s != [] {
      QuoteIsPlusFree(s[1..]);
      QuoteCharIsPlusFree(s[0]);
    }
  }

  lemma PlusToSpaceConcat(a: string, b: string)
    ensures PlusToSpace(a + b) == PlusToSpace(a) + PlusToSpace(b)
  {
  }

  lemma PlusFree(s: string)
    requires '+' !in s
    ensures PlusToSpace(s) == s
  {
    forall i | 0 <= i < |s| ensures PlusToSpace(s)[i] == s[i] { assert s[i] in s; }
  }

  /** A form value survives being written into a query and read out of it. */
  lemma {:induction false} FormValueComesBack(s: string)
    requires IsBytes(s)
    ensures UnquotePlus(QuotePlus(s)) == s
  {
    if s != [] {
      FormValueComesBack(s[1..]);
      var rest := QuotePlus(s[1..]);
      var q := if s[0] == ' ' then "+" else QuoteChar(s[0]);
      PlusToSpaceConcat(q, rest);
      var t := PlusToSpace(rest);
      if s[0] == ' ' {
        assert PlusToSpace("+") == " " && (" " + t)[1..] == t;
      } else {
        UnquoteOne(s[0], t);
        QuoteCharIsPlusFree(s[0]);
        PlusFree(q);
      }
    }
  }

  // --- when decoding changes nothing ---

  ghost predicate HasEscape(s: string) { exists i: nat :: EscapeAt(s, i) }

  lemma {:induction false} UnquoteShortens(s: string)
    ensures HasEscape(s) ==> |Unquote(s)| < |s|
    ensures !HasEscape(s) ==> Unquote(s) == s
  {
    if s != [] && !EscapeAt(s, 0) {
      UnquoteShortens(s[1..]);
      if HasEscape(s) {
        var i: nat :| EscapeAt(s, i);
        assert EscapeAt(s[1..], i - 1);
      } else if HasEscape(s[1..]) {
        var i: nat :| EscapeAt(s[1..], i);
        assert EscapeAt(s, i + 1);
      }
    }
  }

  lemma PlusKeepsEscapes(s: string)
    ensures HasEscape(PlusToSpace(s)) <==> HasEscape(s)
  {
    forall i: nat ensures EscapeAt(PlusToSpace(s), i) <==> EscapeAt(s, i) { }
  }

  /** Read as a form value and then decoded once more: unchanged exactly when there is nothing to decode. */
  lemma DecodedTwiceIff(s: string)
    ensures Unquote(UnquotePlus(s)) == s <==> !HasEscape(s) && '+' !in s
  {
    PlusKeepsEscapes(s);
    UnquoteShortens(PlusToSpace(s));
    UnquoteShortens(UnquotePlus(s));
    if '+' in s {
      var i :| 0 <= i < |s| && s[i] == '+';
      assert PlusToSpace(s)[i] == ' ';
    } else {
      PlusFree(s);
    }
  }

  /** Encoding leaves text as it is exactly when every character is a letter, a digit or one of four marks. */
  lemma {:induction false} QuoteStandsIff(s: string)
    ensures Quote(s) == s
            <==> forall i | 0 <= i < |s| ::
                   || 'A' <= s[i] <= 'Z' || 'a' <= s[i] <= 'z' || '0' <= s[i] <= '9'
                   || s[i] == '-' || s[i] == '.' || s[i] == '_' || s[i] == '~'
  {
    if s != [] {
      QuoteStandsIff(s[1..]);
      assert s == [s[0]] + s[1..];
      if !Unreserved(s[0]) { QuoteGrows(s[1..]); }
    }
  }

  lemma {:induction false} QuoteGrows(s: string)
    ensures |Quote(s)| >= |s|
  {
    if s != [] { QuoteGrows(s[1..]); }
  }

  // --- query strings ---

  /** Split at every ampersand. */
  function Fields(s: string): (r: seq<string>)
    ensures |r| > 0
  {
    if s == [] then [[]]
    else
      var rest := Fields(s[1..]);
      if s[0] == '&' then [[]] + rest else [[s[0]] + rest[0]] + rest[1..]
  }

  /** Index of the first '=', or the length when there is none. */
  function FirstEquals(s: string): (i: nat)
    ensures i <= |s| && '=' !in s[..i] && (i < |s| ==> s[i] == '=')
  {
    if s == [] || s[0] == '=' then 0
    else
      var i := FirstEquals(s[1..]) + 1;
      assert s[..i] == [s[0]] + s[1..][..i - 1];
      i
  }

  /** A field with no '=' or an empty value is skipped. */
  function ReadField(f: string): Option<(string, string)> {
    var i := FirstEquals(f);
    if i + 1 < |f| then Some((UnquotePlus(f[..i]), UnquotePlus(f[i + 1..]))) else None
  }

  /** The first value given for `key`. */
  function Lookup(fields: seq<string>, key: string): Option<string> {
    if fields == [] then None
    else
      var p := ReadField(fields[0]);
      if p.Some? && p.value.0 == key then Some(p.value.1) else Lookup(fields[1..], key)
  }

  lemma {:induction false} FieldsConcat(a: string, b: string)
    ensures Fields(a + "&" + b) == Fields(a) + Fields(b)
  {
    if a == [] {
      assert (a + "&" + b)[1..] == b;
    } else {
      assert (a + "&" + b)[1..] == a[1..] + "&" + b;
      FieldsConcat(a[1..], b);
    }
  }

  lemma {:induction false} OneField(a: string)
    requires '&' !in a
    ensures Fields(a) == [a]
  {
    if a != [] {
      OneField(a[1..]);
      assert [a[0]] + a[1..] == a;
    }
  }

  /** Fields of a text that has an ampersand are all shorter than it. */
  lemma {:induction false} FieldsAreShort(s: string)
    ensures forall f | f in Fields(s) :: |f| <= |s|
    ensures '&' in s ==> forall f | f in Fields(s) :: |f| < |s|
  {
    if s != [] {
      FieldsAreShort(s[1..]);
      var rest := Fields(s[1..]);
      if s[0] != '&' { assert forall f | f in rest[1..] :: f in rest; assert rest[0] in rest; }
    }
  }

  lemma {:induction false} LookupConcat(a: seq<string>, b: seq<string>, key: string)
    ensures Lookup(a + b, key) == if Lookup(a, key).Some? then Lookup(a, key) else Lookup(b, key)
  {
    if a == [] {
      assert a + b == b;
    } else {
      assert (a + b)[1..] == a[1..] + b;
      LookupConcat(a[1..], b, key);
    }
  }

  lemma LookupOne(f: string, k: string)
    ensures Lookup([f], k) == var p := ReadField(f); if p.Some? && p.value.0 == k then Some(p.value.1) else None
  {
    assert [f][1..] == [];
  }

  /** A field `key=value` whose key has nothing to decode. */
  lemma ReadPlainField(key: string, value: string)
    requires '=' !in key && '+' !in key && '%' !in key && value != []
    ensures ReadField(key + "=" + value) == Some((key, UnquotePlus(value)))
  {
    var f := key + "=" + value;
    FirstEqualsIs(key, value);
    assert f[..|key|] == key && f[|key| + 1..] == value;
    PlusFree(key);
    PercentFree(key);
  }

  /** A field is read when it has an equals sign and something after the first one, and not otherwise. */
  lemma FieldReadsIff(f: string)
    ensures ReadField(f).Some? <==> exists i | 0 <= i < |f| - 1 :: f[i] == '=' && '=' !in f[..i]
  {
    if i :| 0 <= i < |f| - 1 && f[i] == '=' && '=' !in f[..i] {
      FirstEqualsIs(f[..i], f[i + 1..]);
      assert f == f[..i] + "=" + f[i + 1..];
    }
  }

  lemma {:induction false} FirstEqualsIs(key: string, value: string)
    requires '=' !in key
    ensures FirstEquals(key + "=" + value) == |key|
  {
    if key != [] {
      assert (key + "=" + value)[1..] == key[1..] + "=" + value;
      FirstEqualsIs(key[1..], value);
    }
  }

  lemma PercentFree(s: string)
    requires '%' !in s
    ensures Unquote(s) == s
  {
    forall i: nat ensures !EscapeAt(s, i) { }
    UnquoteShortens(s);
  }

  lemma {:induction false} UnquotePrefix(a: string, t: string)
    requires '%' !in a
    ensures Unquote(a + t) == a + Unquote(t)
  {
    if a == [] {
      assert a + t == t;
    } else {
      assert (a + t)[1..] == a[1..] + t;
      UnquotePrefix(a[1..], t);
    }
  }

  /** The query a destination already has, with one parameter added. */
  function WithQuery(existing: string, key: string, value: string): string {
    var addition := key + "=" + QuotePlus(value);
    if existing == [] then addition else existing + "&" + addition
  }

  /** Every parameter already there reads as before, and the new one is read unless it was already set. */
  lemma WithQueryAddsOne(existing: string, key: string, value: string, k: string)
    requires IsBytes(value) && value != [] && forall i | 0 <= i < |key| :: Unreserved(key[i])
    ensures Lookup(Fields(WithQuery(existing, key, value)), k)
            == if Lookup(Fields(existing), k).Some? then Lookup(Fields(existing), k)
               else if k == key then Some(value) else None
  {
    var addition := key + "=" + QuotePlus(value);
    QuotedIsOneField(value);
    OneField(addition);
    ReadPlainField(key, QuotePlus(value));
    FormValueComesBack(value);
    LookupOne(addition, k);
    LookupOne("", k);
    if existing != [] {
      FieldsConcat(existing, addition);
      LookupConcat(Fields(existing), [addition], k);
    }
  }

  lemma {:induction false} QuotedIsOneField(s: string)
    ensures '&' !in QuotePlus(s) && (s != [] ==> QuotePlus(s) != [])
  {
    if s != [] {
      QuotedIsOneField(s[1..]);
      HexRoundTrip(s[0] as nat / 16 % 16);
      HexRoundTrip(s[0] as nat % 16);
    }
  }
}
