/**
  What the parser makes of a referrer in general: which names it reads, in what order, and which spellings of
  an id; and which destinations are accepted.
 */
module ReferrerReads {
  import opened Common
  import opened QueryString
  import opened Referrer

  // --- a referrer of plain pairs ---

  predicate PlainPairs(pairs: seq<(string, string)>) {
    forall i | 0 <= i < |pairs| :: IsPlain(pairs[i].0) && IsPlain(pairs[i].1)
  }

  /** `name=value`, with ampersands between. */
  function Form(pairs: seq<(string, string)>): string {
    if pairs == [] then []
    else if |pairs| == 1 then pairs[0].0 + "=" + pairs[0].1
    else pairs[0].0 + "=" + pairs[0].1 + "&" + Form(pairs[1..])
  }

  /** The first value given under a name. */
  function Named(pairs: seq<(string, string)>, name: string): Option<string> {
    if pairs == [] then None else if pairs[0].0 == name then Some(pairs[0].1) else Named(pairs[1..], name)
  }

  function Or<T>(a: Option<T>, b: Option<T>): Option<T> { if a.Some? then a else b }

  lemma {:induction false} FormHasNoEscape(pairs: seq<(string, string)>)
    requires PlainPairs(pairs)
    ensures '%' !in Form(pairs)
  {
    if pairs != [] {
      PlainField(pairs[0].0, pairs[0].1);
      FormHasNoEscape(pairs[1..]);
    }
  }

  lemma {:induction false} FormLooksUp(pairs: seq<(string, string)>, name: string)
    requires PlainPairs(pairs)
    ensures Lookup(Fields(Form(pairs)), name) == Named(pairs, name)
    ensures Named(pairs, name).Some? ==> IsPlain(Named(pairs, name).value)
  {
    if pairs == [] {
      assert Fields([]) == [[]] && ReadField([]) == None;
      LookupOne([], name);
    } else {
      var first := Field(pairs[0].0, pairs[0].1);
      PlainField(pairs[0].0, pairs[0].1);
      OneField(first);
      FormLooksUp(pairs[1..], name);
      if |pairs| == 1 {
        LookupOne(first, name);
      } else {
        FieldsConcat(first, Form(pairs[1..]));
        assert ([first] + Fields(Form(pairs[1..])))[1..] == Fields(Form(pairs[1..]));
      }
    }
  }

  lemma FirstIdUnder(fields: seq<string>, name: string, rest: seq<string>)
    ensures FirstClickId(fields, [name] + rest) == Or(AsUuid(Lookup(fields, name)), FirstClickId(fields, rest))
  {
    assert ([name] + rest)[1..] == rest;
  }

  lemma FiveNames(fields: seq<string>, a: string, b: string, c: string, d: string, e: string)
    ensures FirstClickId(fields, [a, b, c, d, e])
            == Or(AsUuid(Lookup(fields, a)), Or(AsUuid(Lookup(fields, b)), Or(AsUuid(Lookup(fields, c)),
                  Or(AsUuid(Lookup(fields, d)), AsUuid(Lookup(fields, e))))))
  {
    FirstIdUnder(fields, e, []);
    FirstIdUnder(fields, d, [e]);
    FirstIdUnder(fields, c, [d, e]);
    FirstIdUnder(fields, b, [c, d, e]);
    FirstIdUnder(fields, a, [b, c, d, e]);
    assert [e] + [] == [e] && [d] + [e] == [d, e] && [c] + [d, e] == [c, d, e];
    assert [b] + [c, d, e] == [b, c, d, e] && [a] + [b, c, d, e] == [a, b, c, d, e];
  }

  lemma FirstValueUnder(fields: seq<string>, name: string, rest: seq<string>)
    requires Lookup(fields, name) != Some([])
    ensures FirstValue(fields, [name] + rest) == Or(Lookup(fields, name), FirstValue(fields, rest))
  {
    assert ([name] + rest)[1..] == rest;
  }

  lemma ThreeNames(pairs: seq<(string, string)>, a: string, b: string, c: string)
    requires PlainPairs(pairs)
    ensures DeepLinkIn(Fields(Form(pairs)), [a, b, c]) == Or(Named(pairs, a), Or(Named(pairs, b), Named(pairs, c)))
  {
    var fields := Fields(Form(pairs));
    FormLooksUp(pairs, a);
    FormLooksUp(pairs, b);
    FormLooksUp(pairs, c);
    FirstValueUnder(fields, c, []);
    FirstValueUnder(fields, b, [c]);
    FirstValueUnder(fields, a, [b, c]);
    assert [c] + [] == [c] && [b] + [c] == [b, c] && [a] + [b, c] == [a, b, c];
    var v := Or(Named(pairs, a), Or(Named(pairs, b), Named(pairs, c)));
    if v.Some? {
      PlainText(v.value);
      PercentFree(v.value);
    }
  }

  lemma FormIsTheCandidate(pairs: seq<(string, string)>)
    requires PlainPairs(pairs) && |Form(pairs)| <= 2048
    ensures Candidate(Form(pairs)) == Form(pairs)
  {
    var text := Form(pairs);
    FormHasNoEscape(pairs);
    PlainPrefix(text, []);
    assert text + [] == text;
  }

  lemma FiveNamed(pairs: seq<(string, string)>, a: string, b: string, c: string, d: string, e: string)
    requires PlainPairs(pairs)
    ensures FirstClickId(Fields(Form(pairs)), [a, b, c, d, e])
            == Or(AsUuid(Named(pairs, a)), Or(AsUuid(Named(pairs, b)), Or(AsUuid(Named(pairs, c)),
                  Or(AsUuid(Named(pairs, d)), AsUuid(Named(pairs, e))))))
  {
    FormLooksUp(pairs, a);
    FormLooksUp(pairs, b);
    FormLooksUp(pairs, c);
    FormLooksUp(pairs, d);
    FormLooksUp(pairs, e);
    FiveNames(Fields(Form(pairs)), a, b, c, d, e);
  }

  /** Of a referrer of plain pairs the click id is the first of five names whose value reads as a UUID. */
  lemma PlainClickIdReads(pairs: seq<(string, string)>)
    requires PlainPairs(pairs) && pairs != [] && |Form(pairs)| <= 2048
    ensures Parse(Form(pairs)).clickId
            == Or(AsUuid(Named(pairs, "utm_content")), Or(AsUuid(Named(pairs, "mmp_click_id")),
                  Or(AsUuid(Named(pairs, "click_id")), Or(AsUuid(Named(pairs, "clickid")),
                  AsUuid(Named(pairs, "cid"))))))
  {
    FormIsTheCandidate(pairs);
    FiveNamed(pairs, "utm_content", "mmp_click_id", "click_id", "clickid", "cid");
  }

  /** The deep link is the first of three names, and the campaign's source, medium and name are each their own. */
  lemma PlainCampaignReads(pairs: seq<(string, string)>)
    requires PlainPairs(pairs) && pairs != [] && |Form(pairs)| <= 2048
    ensures var p := Parse(Form(pairs));
            && p.deepLink == Or(Named(pairs, "deep_link"), Or(Named(pairs, "deeplink"), Named(pairs, "af_dp")))
            && p.source == Named(pairs, "utm_source") && p.medium == Named(pairs, "utm_medium")
            && p.campaign == Named(pairs, "utm_campaign")
  {
    FormIsTheCandidate(pairs);
    FormLooksUp(pairs, "utm_source");
    FormLooksUp(pairs, "utm_medium");
    FormLooksUp(pairs, "utm_campaign");
    ThreeNames(pairs, "deep_link", "deeplink", "af_dp");
  }

  // --- the spellings of an id ---

  /** Space, the five controls from tab on, and the four separators below it. */
  predicate White(s: string) { forall i | 0 <= i < |s| :: s[i] as int in {9, 10, 11, 12, 13, 28, 29, 30, 31, 32} }

  predicate IsHexId(h: string) { |h| == 32 && forall i | 0 <= i < 32 :: IsHex(h[i]) }

  /** Text that ends in neither a dropped character nor starts with one is not trimmed. */
  lemma NothingToTrim(s: string, drop: char -> bool)
    requires s != [] && !drop(s[0]) && !drop(s[|s| - 1])
    ensures Trim(s, drop) == s
  {
  }

  lemma {:induction false} TrimLeftSkips(pad: string, s: string, drop: char -> bool)
    requires forall i | 0 <= i < |pad| :: drop(pad[i])
    ensures TrimLeft(pad + s, drop) == TrimLeft(s, drop)
  {
    if pad == [] {
      assert pad + s == s;
    } else {
      assert (pad + s)[1..] == pad[1..] + s;
      TrimLeftSkips(pad[1..], s, drop);
    }
  }

  lemma {:induction false} TrimRightSkips(s: string, pad: string, drop: char -> bool)
    requires forall i | 0 <= i < |pad| :: drop(pad[i])
    ensures TrimRight(s + pad, drop) == TrimRight(s, drop)
  {
    if pad == [] {
      assert s + pad == s;
    } else {
      var n := |pad| - 1;
      assert (s + pad)[..|s + pad| - 1] == s + pad[..n];
      TrimRightSkips(s, pad[..n], drop);
    }
  }

  lemma Padded(before: string, s: string, after: string, drop: char -> bool)
    requires s != [] && !drop(s[0]) && !drop(s[|s| - 1])
    requires (forall i | 0 <= i < |before| :: drop(before[i])) && forall i | 0 <= i < |after| :: drop(after[i])
    ensures Trim(before + s + after, drop) == s
  {
    assert before + s + after == before + (s + after);
    TrimLeftSkips(before, s + after, drop);
    assert TrimLeft(s + after, drop) == s + after;
    TrimRightSkips(s, after, drop);
  }

  /** Text without one of the word's characters does not contain the word. */
  lemma {:induction false} LacksALetter(s: string, w: string, k: nat)
    requires k < |w| && w[k] !in s
    ensures Remove(s, w) == s
  {
    if s != [] {
      LacksALetter(s[1..], w, k);
    }
  }

  lemma RemoveFromFront(w: string, s: string)
    requires w != []
    ensures Remove(w + s, w) == Remove(s, w)
  {
    assert w <= w + s && (w + s)[|w|..] == s;
  }

  predicate HexOrHyphen(s: string) { s != [] && forall i | 0 <= i < |s| :: IsHex(s[i]) || s[i] == '-' }

  lemma NoLetters(s: string)
    requires HexOrHyphen(s)
    ensures 'u' !in s && 'r' !in s && '{' !in s && '}' !in s
    ensures !IsSpace(s[0]) && !IsSpace(s[|s| - 1])
  {
  }

  lemma WhiteIsSpace(s: string)
    ensures White(s) <==> forall i | 0 <= i < |s| :: IsSpace(s[i])
  {
    forall i | 0 <= i < |s| ensures IsSpace(s[i]) <==> s[i] as int in {9, 10, 11, 12, 13, 28, 29, 30, 31, 32} { }
  }

  /** `bare` is what is left of `text` without its URN prefix. */
  lemma SpellingReads(before: string, text: string, after: string, bare: string, h: string)
    requires (forall i | 0 <= i < |before| :: IsSpace(before[i])) && forall i | 0 <= i < |after| :: IsSpace(after[i])
    requires text != [] && !IsSpace(text[0]) && !IsSpace(text[|text| - 1])
    requires Remove(Remove(text, "urn:"), "uuid:") == bare && IsHexId(h)
    requires Remove(Trim(bare, c => c in "{}"), "-") == h
    ensures AsUuid(Some(before + text + after)) == Some(Lowered(h))
  {
    Padded(before, text, after, IsSpace);
  }

  lemma BareReads(before: string, s: string, after: string, h: string)
    requires (forall i | 0 <= i < |before| :: IsSpace(before[i])) && forall i | 0 <= i < |after| :: IsSpace(after[i])
    requires HexOrHyphen(s) && IsHexId(h) && Remove(s, "-") == h
    ensures AsUuid(Some(before + s + after)) == Some(Lowered(h))
  {
    NoLetters(s);
    LacksALetter(s, "urn:", 0);
    LacksALetter(s, "uuid:", 0);
    NothingToTrim(s, c => c in "{}");
    SpellingReads(before, s, after, s, h);
  }

  lemma BracedReads(before: string, s: string, after: string, h: string)
    requires (forall i | 0 <= i < |before| :: IsSpace(before[i])) && forall i | 0 <= i < |after| :: IsSpace(after[i])
    requires HexOrHyphen(s) && IsHexId(h) && Remove(s, "-") == h
    ensures AsUuid(Some(before + ("{" + s + "}") + after)) == Some(Lowered(h))
  {
    var text := "{" + s + "}";
    NoLetters(s);
    LacksALetter(text, "urn:", 0);
    LacksALetter(text, "uuid:", 0);
    Padded("{", s, "}", c => c in "{}");
    SpellingReads(before, text, after, text, h);
  }

  lemma UrnReads(before: string, s: string, after: string, h: string)
    requires (forall i | 0 <= i < |before| :: IsSpace(before[i])) && forall i | 0 <= i < |after| :: IsSpace(after[i])
    requires HexOrHyphen(s) && IsHexId(h) && Remove(s, "-") == h
    ensures AsUuid(Some(before + ("urn:" + ("uuid:" + s)) + after)) == Some(Lowered(h))
  {
    NoLetters(s);
    RemoveFromFront("urn:", "uuid:" + s);
    LacksALetter("uuid:" + s, "urn:", 1);
    RemoveFromFront("uuid:", s);
    LacksALetter(s, "uuid:", 0);
    NothingToTrim(s, c => c in "{}");
    SpellingReads(before, "urn:" + ("uuid:" + s), after, s, h);
  }

  lemma HyphenatedIsHex(h: string)
    requires IsHexId(h)
    ensures '-' !in h && HexOrHyphen(h) && HexOrHyphen(Hyphenated(h))
  {
  }

  /**
    An id of 32 hexadecimal digits in either case is read from any of its usual spellings, with or without
    hyphens, in braces, or as a URN, and with white space around it; and reads in lower case.
   */
  lemma UuidSpellings(h: string, before: string, after: string)
    requires IsHexId(h)
    requires White(before) && White(after)
    ensures var id := Some(Lowered(h));
            && AsUuid(Some(before + h + after)) == id
            && AsUuid(Some(before + Hyphenated(h) + after)) == id
            && AsUuid(Some(before + ("{" + Hyphenated(h) + "}") + after)) == id
            && AsUuid(Some(before + ("urn:" + ("uuid:" + Hyphenated(h))) + after)) == id
  {
    var s := Hyphenated(h);
    WhiteIsSpace(before);
    WhiteIsSpace(after);
    HyphenatedIsHex(h);
    HyphensRemoved(h);
    LacksALetter(h, "-", 0);
    BareReads(before, h, after, h);
    BareReads(before, s, after, h);
    BracedReads(before, s, after, h);
    UrnReads(before, s, after, h);
  }

  /** Whatever it is given, what is read as an id is one. */
  lemma ReadsOnlyIds(value: Option<string>)
    ensures AsUuid(value).Some? ==> IsClickId(AsUuid(value).value)
  {
  }

  // --- accepted destinations ---

  predicate PathChar(c: char) {
    || 'a' <= c <= 'z' || 'A' <= c <= 'Z' || '0' <= c <= '9'
    || c in "-._~/%!$&'()*+,;=:@[]?#"
  }

  /** What lies between two slashes, or a slash and an end. */
  predicate SegmentAt(s: string, i: nat, j: nat) {
    i <= j <= |s| && (i == 0 || s[i - 1] == '/') && (j == |s| || s[j] == '/')
  }

  /** The word is there in some mix of cases. */
  ghost predicate Spelled(s: string, w: string) { exists i: nat :: SpelledAt(s, i, w) }

  predicate SpelledAt(s: string, i: nat, w: string) { i + |w| <= |s| && Lowered(s[i..i + |w|]) == w }

  ghost predicate UpSegment(s: string) { exists i: nat, j: nat :: SegmentAt(s, i, j) && s[i..j] == ".." }

  ghost predicate GoesUp(s: string) { UpSegment(s) || Spelled(s, "%2e%2e") || Spelled(s, "%252e") }

  lemma UpSegmentIff(s: string)
    ensures UpSegment(s) <==> exists i | 0 <= i < |s| :: DotDotAt(s, i)
  {
    if UpSegment(s) {
      var i: nat, j: nat :| SegmentAt(s, i, j) && s[i..j] == "..";
      assert s[i] == s[i..j][0] && s[i + 1] == s[i..j][1];
      assert DotDotAt(s, i);
    }
    if i :| 0 <= i < |s| && DotDotAt(s, i) { assert SegmentAt(s, i, i + 2) && s[i..i + 2] == ".."; }
  }

  lemma SpelledIff(s: string, w: string)
    requires w != []
    ensures Spelled(s, w) <==> exists i | 0 <= i < |s| :: FoldedAt(s, i, w)
  {
    if Spelled(s, w) {
      var i: nat :| SpelledAt(s, i, w);
      assert FoldedAt(s, i, w);
    }
    if i :| 0 <= i < |s| && FoldedAt(s, i, w) { assert SpelledAt(s, i, w); }
  }

  lemma GoesUpIsTraverses(s: string)
    ensures GoesUp(s) <==> Traverses(s)
  {
    UpSegmentIff(s);
    SpelledIff(s, "%2e%2e");
    SpelledIff(s, "%252e");
  }

  lemma SafeIs(s: string)
    ensures Printable(s) && RelativePath(s)
            <==> s != [] && s[0] == '/' && (|s| > 1 ==> s[1] != '/') && forall i | 0 <= i < |s| :: PathChar(s[i])
  {
    forall i | 0 <= i < |s| ensures SafeChar(s[i]) <==> PathChar(s[i]) { }
    forall i | 0 <= i < |s| && SafeChar(s[i])
      ensures s[i] >= 32 as char && s[i] != 127 as char && s[i] != '\\'
    {
      SafeIsByte(s[i]);
    }
  }

  /**
    A destination is accepted, without the white space around it, exactly when it is at most 512 characters
    of the safe alphabet, starts with one slash and not two, and has no segment that goes up, spelled out
    or encoded.
   */
  lemma AcceptedIff(raw: string)
    ensures var p := Trim(raw, IsSpace);
            && CleanPath(Some(raw))
               == (if && 0 < |p| <= 512 && p[0] == '/' && (|p| > 1 ==> p[1] != '/')
                      && (forall i | 0 <= i < |p| :: PathChar(p[i])) && !GoesUp(p)
                   then Some(p) else None)
    ensures CleanPath(None) == None
  {
    GoesUpIsTraverses(Trim(raw, IsSpace));
    SafeIs(Trim(raw, IsSpace));
  }
}
