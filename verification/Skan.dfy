/** The string an install-validation postback is signed over, and what two postbacks that share one have in common. */
module Skan {
  import opened Common

  /** A JSON value, by how it prints. */
  datatype Value = Bool(b: bool) | Other(text: string)

  type Payload = map<string, Value>

  const SEPARATOR: char := 0x2063 as char

  function Render(v: Value): string { if v.Bool? then (if v.b then "true" else "false") else v.text }

  /** The version as text; a boolean prints capitalised, and is no version. */
  function VersionOf(p: Payload): string {
    if "version" !in p then ""
    else if p["version"].Bool? then (if p["version"].b then "True" else "False")
    else p["version"].text
  }

  /** One position of the signed string: a named field, or whichever sources the postback carries. */
  datatype Slot = Named(name: string) | Source

  function Opening(version: string): seq<string> {
    ["version", "ad-network-id", if version == "4.0" then "source-identifier" else "campaign-id",
     "app-id", "transaction-id", "redownload"]
  }

  function Closing(version: string): seq<string> {
    if version == "2.1" then []
    else if version == "2.2" then ["fidelity-type"]
    else if version == "3.0" then ["fidelity-type", "did-win"]
    else ["fidelity-type", "did-win", "postback-sequence-index"]
  }

  function NamedAll(names: seq<string>): seq<Slot> { seq(|names|, i requires 0 <= i < |names| => Named(names[i])) }

  predicate KnownVersion(version: string) { version in {"2.1", "2.2", "3.0", "4.0"} }

  function FieldOrder(version: string): seq<Slot> {
    NamedAll(Opening(version)) + [if version == "4.0" then Source else Named("source-app-id")]
      + NamedAll(Closing(version))
  }

  function Part(p: Payload, name: string): seq<string> { if name in p then [Render(p[name])] else [] }

  function SlotParts(p: Payload, s: Slot): seq<string> {
    if s.Source? then Part(p, "source-app-id") + Part(p, "source-domain") else Part(p, s.name)
  }

  function Parts(p: Payload, order: seq<Slot>): seq<string> {
    if order == [] then [] else SlotParts(p, order[0]) + Parts(p, order[1..])
  }

  function Join(parts: seq<string>): string {
    if parts == [] then [] else if |parts| == 1 then parts[0] else parts[0] + [SEPARATOR] + Join(parts[1..])
  }

  predicate Clean(parts: seq<string>) { forall i | 0 <= i < |parts| :: SEPARATOR !in parts[i] }

  /** The signed string, or none when a value contains the separator. */
  function Canonical(p: Payload): Option<string>
    requires KnownVersion(VersionOf(p))
  {
    var parts := Parts(p, FieldOrder(VersionOf(p)));
    if Clean(parts) then Some(Join(parts)) else None
  }

  function Required(version: string): set<string> {
    (set f | f in Opening(version)) + (set f | f in Closing(version))
  }

  /** The checks made before the signature. */
  predicate Checked(p: Payload) { KnownVersion(VersionOf(p)) && Required(VersionOf(p)) <= p.Keys }

  /** The source values a postback shows, in order. */
  function Sources(p: Payload): seq<string> {
    if VersionOf(p) == "4.0" then Part(p, "source-app-id") + Part(p, "source-domain") else Part(p, "source-app-id")
  }

  // --- joining loses nothing ---

  lemma FirstSeparator(a: string, b: string, s: string, t: string)
    requires SEPARATOR !in a && SEPARATOR !in b
    requires a + [SEPARATOR] + s == b + [SEPARATOR] + t
    ensures a == b && s == t
  {
    var x, y := a + [SEPARATOR] + s, b + [SEPARATOR] + t;
    assert x[|a|] == SEPARATOR && forall k | 0 <= k < |a| :: x[k] == a[k] && a[k] in a;
    assert y[|b|] == SEPARATOR && forall k | 0 <= k < |b| :: y[k] == b[k] && b[k] in b;
    assert a == x[..|a|] && b == y[..|b|] && s == x[|a| + 1..] && t == y[|b| + 1..];
  }

  lemma JoinShows(parts: seq<string>)
    requires parts != [] && Clean(parts)
    ensures SEPARATOR in Join(parts) <==> |parts| > 1
  {
    if |parts| > 1 { assert Join(parts)[|parts[0]|] == SEPARATOR; }
  }

  lemma {:induction false} JoinIsInjective(ps: seq<string>, qs: seq<string>)
    requires ps != [] && qs != [] && Clean(ps) && Clean(qs) && Join(ps) == Join(qs)
    ensures ps == qs
  {
    JoinShows(ps);
    JoinShows(qs);
    if |ps| > 1 {
      FirstSeparator(ps[0], qs[0], Join(ps[1..]), Join(qs[1..]));
      JoinIsInjective(ps[1..], qs[1..]);
      assert ps == [ps[0]] + ps[1..] && qs == [qs[0]] + qs[1..];
    }
  }

  // --- the shape of the parts ---

  lemma {:induction false} PartsConcat(p: Payload, a: seq<Slot>, b: seq<Slot>)
    ensures Parts(p, a + b) == Parts(p, a) + Parts(p, b)
  {
    if a == [] {
      assert a + b == b;
    } else {
      assert (a + b)[1..] == a[1..] + b;
      PartsConcat(p, a[1..], b);
    }
  }

  /** Fields that are all there give one part each. */
  lemma {:induction false} PresentParts(p: Payload, names: seq<string>)
    requires forall f | f in names :: f in p
    ensures |Parts(p, NamedAll(names))| == |names|
    ensures forall i | 0 <= i < |names| :: Parts(p, NamedAll(names))[i] == Render(p[names[i]])
  {
    if names != [] {
      assert NamedAll(names)[1..] == NamedAll(names[1..]);
      PresentParts(p, names[1..]);
    }
  }

  lemma PartsShape(p: Payload)
    requires Checked(p)
    ensures var v := VersionOf(p);
            Parts(p, FieldOrder(v)) == Parts(p, NamedAll(Opening(v))) + Sources(p) + Parts(p, NamedAll(Closing(v)))
  {
    var v := VersionOf(p);
    var slot := if v == "4.0" then Source else Named("source-app-id");
    PartsConcat(p, NamedAll(Opening(v)) + [slot], NamedAll(Closing(v)));
    PartsConcat(p, NamedAll(Opening(v)), [slot]);
    assert Parts(p, [slot]) == Sources(p) by { assert [slot][1..] == []; }
  }

  lemma RequiredAreThere(p: Payload)
    requires Checked(p)
    ensures forall f | f in Opening(VersionOf(p)) :: f in p
    ensures forall f | f in Closing(VersionOf(p)) :: f in p
  {
  }

  lemma FirstPartIsVersion(p: Payload)
    requires Checked(p)
    ensures var parts := Parts(p, FieldOrder(VersionOf(p))); parts != [] && parts[0] == VersionOf(p)
  {
    PartsShape(p);
    RequiredAreThere(p);
    PresentParts(p, Opening(VersionOf(p)));
    assert Opening(VersionOf(p))[0] == "version" && "version" in Opening(VersionOf(p));
  }

  lemma SameParts(p: Payload, q: Payload, names: seq<string>)
    requires forall f | f in names :: f in p && f in q
    ensures Parts(p, NamedAll(names)) == Parts(q, NamedAll(names))
            <==> forall f | f in names :: Render(p[f]) == Render(q[f])
  {
    PresentParts(p, names);
    PresentParts(q, names);
    if Parts(p, NamedAll(names)) == Parts(q, NamedAll(names)) {
      forall f | f in names ensures Render(p[f]) == Render(q[f]) {
        var i :| 0 <= i < |names| && names[i] == f;
        assert Parts(p, NamedAll(names))[i] == Parts(q, NamedAll(names))[i];
      }
    } else {
      var i :| 0 <= i < |names| && Parts(p, NamedAll(names))[i] != Parts(q, NamedAll(names))[i];
      assert names[i] in names;
    }
  }

  lemma SplitsAlike(a: seq<string>, b: seq<string>, c: seq<string>, a': seq<string>, b': seq<string>, c': seq<string>)
    requires |a| == |a'| && |c| == |c'|
    ensures a + b + c == a' + b' + c' <==> a == a' && b == b' && c == c'
  {
    if a + b + c == a' + b' + c' {
      var n := |a| + |b|;
      assert a == (a + b + c)[..|a|] && a' == (a' + b' + c')[..|a|];
      assert b == (a + b + c)[|a|..n] && b' == (a' + b' + c')[|a|..n];
      assert c == (a + b + c)[n..] && c' == (a' + b' + c')[n..];
    }
  }

  /** With the same version, the same parts are the same required fields and the same sources. */
  lemma SameVersionIff(p: Payload, q: Payload)
    requires Checked(p) && Checked(q) && VersionOf(p) == VersionOf(q)
    ensures Parts(p, FieldOrder(VersionOf(p))) == Parts(q, FieldOrder(VersionOf(q)))
            <==> Sources(p) == Sources(q) && forall f | f in Required(VersionOf(p)) :: Render(p[f]) == Render(q[f])
  {
    var v := VersionOf(p);
    PartsShape(p);
    PartsShape(q);
    RequiredAreThere(p);
    RequiredAreThere(q);
    PresentParts(p, Opening(v));
    PresentParts(q, Opening(v));
    PresentParts(p, Closing(v));
    PresentParts(q, Closing(v));
    SplitsAlike(Parts(p, NamedAll(Opening(v))), Sources(p), Parts(p, NamedAll(Closing(v))),
                Parts(q, NamedAll(Opening(v))), Sources(q), Parts(q, NamedAll(Closing(v))));
    SameParts(p, q, Opening(v));
    SameParts(p, q, Closing(v));
  }

  /**
    Two postbacks that pass the checks are signed over the same string exactly when they agree on the
    version, on every required field as printed, and on the list of sources as printed.
   */
  lemma SameStringIff(p: Payload, q: Payload)
    requires Checked(p) && Checked(q) && Canonical(p).Some? && Canonical(q).Some?
    ensures Canonical(p) == Canonical(q)
            <==> && VersionOf(p) == VersionOf(q)
                 && Sources(p) == Sources(q)
                 && forall f | f in Required(VersionOf(p)) && f in p && f in q :: Render(p[f]) == Render(q[f])
  {
    var ps, qs := Parts(p, FieldOrder(VersionOf(p))), Parts(q, FieldOrder(VersionOf(q)));
    FirstPartIsVersion(p);
    FirstPartIsVersion(q);
    if Canonical(p) == Canonical(q) { JoinIsInjective(ps, qs); }
    if VersionOf(p) == VersionOf(q) { SameVersionIff(p, q); }
  }

  // --- the string itself, version by version ---

  /** The parts one after another with an invisible separator between any two. */
  function Line(parts: seq<string>): string
    requires parts != []
  {
    if |parts| == 1 then parts[0]
    else Line(parts[..|parts| - 1]) + [0x2063 as char] + parts[|parts| - 1]
  }

  lemma {:induction false} LineFromFront(first: string, rest: seq<string>)
    requires rest != []
    ensures Line([first] + rest) == first + [0x2063 as char] + Line(rest)
  {
    var all, n := [first] + rest, |rest|;
    assert all[..n] == [first] + rest[..n - 1];
    if n == 1 {
      assert all[..1] == [first] && Line([first]) == first;
    } else {
      LineFromFront(first, rest[..n - 1]);
      Glue(first + [0x2063 as char], Line(rest[..n - 1]), [0x2063 as char], rest[n - 1]);
    }
  }

  lemma Glue(a: string, b: string, c: string, d: string)
    ensures a + b + c + d == a + (b + c + d)
  {
  }

  lemma {:induction false} JoinIsLine(parts: seq<string>)
    requires parts != []
    ensures Join(parts) == Line(parts)
  {
    if |parts| > 1 {
      JoinIsLine(parts[1..]);
      LineFromFront(parts[0], parts[1..]);
      assert parts == [parts[0]] + parts[1..];
    }
  }

  /** A required field as printed. */
  function Field(p: Payload, name: string): string { if name in p then Render(p[name]) else "" }

  /** An optional one, if it is there. */
  function Optional(p: Payload, name: string): seq<string> { if name in p then [Render(p[name])] else [] }

  function SignedFields(p: Payload): seq<string> {
    match VersionOf(p)
    case "2.1" =>
      ["2.1", Field(p, "ad-network-id"), Field(p, "campaign-id"), Field(p, "app-id"), Field(p, "transaction-id"),
       Field(p, "redownload")] + Optional(p, "source-app-id")
    case "2.2" =>
      ["2.2", Field(p, "ad-network-id"), Field(p, "campaign-id"), Field(p, "app-id"), Field(p, "transaction-id"),
       Field(p, "redownload")] + Optional(p, "source-app-id") + [Field(p, "fidelity-type")]
    case "3.0" =>
      ["3.0", Field(p, "ad-network-id"), Field(p, "campaign-id"), Field(p, "app-id"), Field(p, "transaction-id"),
       Field(p, "redownload")] + Optional(p, "source-app-id") + [Field(p, "fidelity-type"), Field(p, "did-win")]
    case _ =>
      ["4.0", Field(p, "ad-network-id"), Field(p, "source-identifier"), Field(p, "app-id"), Field(p, "transaction-id"),
       Field(p, "redownload")] + (Optional(p, "source-app-id") + Optional(p, "source-domain"))
      + [Field(p, "fidelity-type"), Field(p, "did-win"), Field(p, "postback-sequence-index")]
  }

  lemma SixFields(p: Payload, a: string, b: string, c: string, d: string, e: string, f: string)
    requires a in p && b in p && c in p && d in p && e in p && f in p
    ensures Parts(p, NamedAll([a, b, c, d, e, f]))
            == [Render(p[a]), Field(p, b), Field(p, c), Field(p, d), Field(p, e), Field(p, f)]
  {
    PresentParts(p, [a, b, c, d, e, f]);
  }

  lemma OpeningFields(p: Payload)
    requires Checked(p)
    ensures Parts(p, NamedAll(Opening(VersionOf(p))))
            == [VersionOf(p), Field(p, "ad-network-id"),
                Field(p, if VersionOf(p) == "4.0" then "source-identifier" else "campaign-id"), Field(p, "app-id"),
                Field(p, "transaction-id"), Field(p, "redownload")]
  {
    var names := Opening(VersionOf(p));
    RequiredAreThere(p);
    assert names[0] in names && names[1] in names && names[2] in names;
    assert names[3] in names && names[4] in names && names[5] in names;
    assert Render(p["version"]) == VersionOf(p);
    SixFields(p, names[0], names[1], names[2], names[3], names[4], names[5]);
    assert names == [names[0], names[1], names[2], names[3], names[4], names[5]];
  }

  lemma ClosingFields(p: Payload)
    requires Checked(p)
    ensures Parts(p, NamedAll(Closing(VersionOf(p))))
            == match VersionOf(p)
               case "2.1" => []
               case "2.2" => [Field(p, "fidelity-type")]
               case "3.0" => [Field(p, "fidelity-type"), Field(p, "did-win")]
               case _ => [Field(p, "fidelity-type"), Field(p, "did-win"), Field(p, "postback-sequence-index")]
  {
    var names := Closing(VersionOf(p));
    RequiredAreThere(p);
    PresentParts(p, names);
    assert forall i | 0 <= i < |names| :: names[i] in names;
  }

  /**
    The string of every postback that passes the checks: its version's fields in order, the optional ones
    only if they are there, with separators between; none if a separator is inside a field. Booleans print
    in lower case.
   */
  lemma SignedString(p: Payload)
    requires Checked(p)
    ensures Canonical(p)
            == if forall i | 0 <= i < |SignedFields(p)| :: 0x2063 as char !in SignedFields(p)[i]
               then Some(Line(SignedFields(p))) else None
    ensures Render(Bool(true)) == "true" && Render(Bool(false)) == "false" && forall t :: Render(Other(t)) == t
  {
    PartsShape(p);
    OpeningFields(p);
    ClosingFields(p);
    assert Parts(p, FieldOrder(VersionOf(p))) == SignedFields(p);
    JoinIsLine(SignedFields(p));
  }

  // --- what the string leaves open ---

  function Shown(p: Payload, name: string): Option<string> { if name in p then Some(Render(p[name])) else None }

  /** A version 4 string fixes which source is which exactly when the postbacks carry the same source fields. */
  lemma SourcesReadAlikeIff(p: Payload, q: Payload)
    requires Checked(p) && Checked(q) && Canonical(p).Some? && Canonical(p) == Canonical(q) && VersionOf(p) == "4.0"
    ensures Shown(p, "source-app-id") == Shown(q, "source-app-id")
            && Shown(p, "source-domain") == Shown(q, "source-domain")
            <==> ("source-app-id" in p <==> "source-app-id" in q) && ("source-domain" in p <==> "source-domain" in q)
  {
    SameStringIff(p, q);
    if ("source-app-id" in p <==> "source-app-id" in q) && ("source-domain" in p <==> "source-domain" in q) {
      SourcesPin(p, q);
    }
  }

  lemma SourcesPin(p: Payload, q: Payload)
    requires VersionOf(p) == "4.0" && VersionOf(q) == "4.0" && Sources(p) == Sources(q)
    requires ("source-app-id" in p <==> "source-app-id" in q) && ("source-domain" in p <==> "source-domain" in q)
    ensures Shown(p, "source-app-id") == Shown(q, "source-app-id")
            && Shown(p, "source-domain") == Shown(q, "source-domain")
  {
    if "source-app-id" in p {
      assert Sources(p)[0] == Render(p["source-app-id"]) && Sources(q)[0] == Render(q["source-app-id"]);
      if "source-domain" in p {
        assert Sources(p)[1] == Render(p["source-domain"]) && Sources(q)[1] == Render(q["source-domain"]);
      }
    } else if "source-domain" in p {
      assert Sources(p)[0] == Render(p["source-domain"]) && Sources(q)[0] == Render(q["source-domain"]);
    }
  }

  /** An app id and a domain that print alike are not told apart. */
  lemma AppOrDomain(p: Payload, v: Value)
    requires Checked(p) && VersionOf(p) == "4.0" && "source-app-id" !in p && "source-domain" !in p
    ensures Canonical(p["source-app-id" := v]) == Canonical(p["source-domain" := v])
  {
    var x, y := p["source-app-id" := v], p["source-domain" := v];
    assert Sources(x) == [Render(v)] == Sources(y);
    assert forall f | f in Required("4.0") :: f != "source-app-id" && f != "source-domain";
    SameVersionIff(x, y);
  }
}
