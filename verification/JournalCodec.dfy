/** A codec with everything that the journal asks of one: what is proved about journals holds of
    something. Entries are written out in unary between braces. */
module JournalCodec {
  import opened Text
  import opened RunnerModel
  import opened JournalText

  // ---------------------------------------------------------------------------------------------
  // Any distinguishing body between braces gives a faithful codec
  // ---------------------------------------------------------------------------------------------

  predicate IsPlain(s: string) {
    '{' !in s && '}' !in s && '\n' !in s && '\r' !in s
  }

  ghost predicate Distinguishes(body: Entry -> string) {
    && (forall e :: IsPlain(body(e)))
    && (forall e, f :: body(e) == body(f) ==> e == f)
  }

  function Framed(body: string): string {
    ['{'] + body + ['}']
  }

  ghost function Decoded(body: Entry -> string, s: string): Option<Entry> {
    if exists e :: s == Framed(body(e)) then
      var e :| s == Framed(body(e));
      Some(e)
    else None
  }

  ghost function FramedCodec(body: Entry -> string): Codec {
    Codec(e => Framed(body(e)), s => Decoded(body, s))
  }

  lemma FramedInside(body: string)
    ensures Framed(body)[1..|body| + 1] == body
    ensures IsPlain(body) ==> forall i :: 1 <= i < |Framed(body)| ==> Framed(body)[i] != '{'
    ensures IsPlain(body) ==> forall i :: 0 <= i < |Framed(body)| - 1 ==> Framed(body)[i] != '}'
  {
    var s := Framed(body);
    assert forall i :: 1 <= i < |s| - 1 ==> s[i] == body[i - 1] && body[i - 1] in body;
  }

  lemma DecodedFramed(body: Entry -> string, e: Entry)
    requires Distinguishes(body)
    ensures Decoded(body, Framed(body(e))) == Some(e)
  {
    var found := Decoded(body, Framed(body(e)));
    assert found.Some? && Framed(body(e)) == Framed(body(found.value));
    FramedInside(body(e));
    FramedInside(body(found.value));
  }

  lemma ProperBeginning(body: Entry -> string, e: Entry, part: string)
    requires Distinguishes(body) && part < Framed(body(e))
    ensures Decoded(body, part) == None
  {
    FramedInside(body(e));
    assert part != "" ==> part[|part| - 1] == Framed(body(e))[|part| - 1] != '}';
    assert forall f :: Framed(body(f)) != "" && Framed(body(f))[|Framed(body(f))| - 1] == '}';
  }

  lemma {:induction false} GluedBraces(c: Codec, parts: seq<string>)
    requires |parts| >= 2
    requires forall i :: 0 <= i < |parts| ==> parts[i] != "" && parts[i][0] == '{'
    ensures exists i :: 1 <= i < |Concat(parts)| && Concat(parts)[i] == '{'
  {
    var n := |parts| - 1;
    var before := Concat(parts[..n]);
    assert before != "" by {
      assert parts[..n][n - 1] == parts[n - 1];
    }
    assert Concat(parts)[|before|] == '{';
  }

  lemma GluedBeginnings(body: Entry -> string, parts: seq<string>)
    requires Distinguishes(body) && |parts| >= 2 && AreBeginnings(FramedCodec(body), parts)
    ensures Decoded(body, Concat(parts)) == None
  {
    forall i | 0 <= i < |parts| ensures parts[i] != "" && parts[i][0] == '{' {
      var e :| parts[i] <= FramedCodec(body).encode(e);
    }
    GluedBraces(FramedCodec(body), parts);
    if f :| Concat(parts) == Framed(body(f)) {
      FramedInside(body(f));
    }
  }

  lemma {:induction false} TrimKeepsBrace(s: string)
    requires s != "" && s[0] == '{'
    ensures Trim(s) != ""
  {
    TrimEndKeepsBrace(s);
  }

  lemma {:induction false} TrimEndKeepsBrace(s: string)
    requires s != "" && s[0] == '{'
    ensures TrimEnd(s) != ""
  {
    if |s| > 1 {
      TrimEndKeepsBrace(s[..|s| - 1]);
    }
  }

  lemma FramedIsFaithful(body: Entry -> string)
    requires Distinguishes(body)
    ensures IsFaithful(FramedCodec(body))
  {
    var c := FramedCodec(body);
    forall e ensures
      c.decode(c.encode(e)) == Some(e) && '\n' !in c.encode(e) && '\r' !in c.encode(e) && Trim(c.encode(e)) != ""
    {
      DecodedFramed(body, e);
      assert IsPlain(body(e));
      TrimKeepsBrace(c.encode(e));
    }
    forall e, part | part < c.encode(e) ensures c.decode(part) == None {
      ProperBeginning(body, e, part);
    }
    forall parts | |parts| >= 2 && AreBeginnings(c, parts) ensures c.decode(Concat(parts)) == None {
      GluedBeginnings(body, parts);
    }
  }

  // ---------------------------------------------------------------------------------------------
  // A body that distinguishes all entries
  // ---------------------------------------------------------------------------------------------

  /** A number in unary, with a stop. */
  function Unary(n: nat): string {
    if n == 0 then ['.'] else ['1'] + Unary(n - 1)
  }

  function OfText(s: string): string {
    if s == "" then ['.'] else ['1'] + Unary(s[0] as int) + OfText(s[1..])
  }

  function OfTexts(parts: seq<string>): string {
    if parts == [] then ['.'] else ['1'] + OfText(parts[0]) + OfTexts(parts[1..])
  }

  /** The keys and values of a map, in some order that the map decides. */
  ghost function Listing(m: map<string, string>): seq<string>
    decreases |m|
  {
    if m == map[] then []
    else
      var k :| k in m;
      [k, m[k]] + Listing(m - {k})
  }

  function FromListing(parts: seq<string>): map<string, string> {
    if |parts| < 2 then map[] else FromListing(parts[2..])[parts[0] := parts[1]]
  }

  lemma {:induction false} ListingIsInverted(m: map<string, string>)
    ensures FromListing(Listing(m)) == m
    decreases |m|
  {
    if m != map[] {
      var k :| k in m && Listing(m) == [k, m[k]] + Listing(m - {k});
      assert Listing(m)[2..] == Listing(m - {k});
      ListingIsInverted(m - {k});
    }
  }

  ghost function OfRegistration(r: Registration): string {
    OfText(r.runnerId) + (OfTexts(r.roles) + (OfTexts(Listing(r.labels)) +
      (Unary(r.maxConcurrency) + Unary(r.leaseTtlSeconds))))
  }

  function OfHeartbeat(h: Heartbeat): string {
    OfText(h.runnerId) + (Unary(h.runningTasks) + Unary(h.capacityRemaining))
  }

  ghost function Body(e: Entry): string {
    match e
    case Registered(r, recordedAt) => ['r'] + (OfRegistration(r) + Unary(recordedAt))
    case Beat(h, recordedAt) => ['h'] + (OfHeartbeat(h) + Unary(recordedAt))
  }

  lemma {:induction false} UnaryIsPlain(n: nat)
    ensures IsPlain(Unary(n))
  {
    if n > 0 {
      UnaryIsPlain(n - 1);
    }
  }

  lemma {:induction false} OfTextIsPlain(s: string)
    ensures IsPlain(OfText(s))
  {
    if s != "" {
      UnaryIsPlain(s[0] as int);
      OfTextIsPlain(s[1..]);
    }
  }

  lemma {:induction false} OfTextsIsPlain(parts: seq<string>)
    ensures IsPlain(OfTexts(parts))
  {
    if parts != [] {
      OfTextIsPlain(parts[0]);
      OfTextsIsPlain(parts[1..]);
    }
  }

  lemma BodyIsPlain(e: Entry)
    ensures IsPlain(Body(e))
  {
    UnaryIsPlain(e.recordedAt);
    match e {
      case Registered(r, _) =>
        OfTextIsPlain(r.runnerId);
        OfTextsIsPlain(r.roles);
        OfTextsIsPlain(Listing(r.labels));
        UnaryIsPlain(r.maxConcurrency);
        UnaryIsPlain(r.leaseTtlSeconds);
      case Beat(h, _) =>
        OfTextIsPlain(h.runnerId);
        UnaryIsPlain(h.runningTasks);
        UnaryIsPlain(h.capacityRemaining);
    }
  }

  lemma {:induction false} UnarySplits(m: nat, n: nat, a: string, b: string)
    requires Unary(m) + a == Unary(n) + b
    ensures m == n && a == b
  {
    assert (Unary(m) + a)[0] == if m == 0 then '.' else '1';
    assert (Unary(n) + b)[0] == if n == 0 then '.' else '1';
    if m == 0 {
      assert (Unary(m) + a)[1..] == a && (Unary(n) + b)[1..] == b;
    } else {
      assert (Unary(m) + a)[1..] == Unary(m - 1) + a;
      assert (Unary(n) + b)[1..] == Unary(n - 1) + b;
      UnarySplits(m - 1, n - 1, a, b);
    }
  }

  lemma {:induction false} OfTextSplits(s: string, t: string, a: string, b: string)
    requires OfText(s) + a == OfText(t) + b
    ensures s == t && a == b
  {
    assert (OfText(s) + a)[0] == if s == "" then '.' else '1';
    assert (OfText(t) + b)[0] == if t == "" then '.' else '1';
    if s == "" {
      assert (OfText(s) + a)[1..] == a && (OfText(t) + b)[1..] == b;
    } else {
      assert (OfText(s) + a)[1..] == Unary(s[0] as int) + (OfText(s[1..]) + a);
      assert (OfText(t) + b)[1..] == Unary(t[0] as int) + (OfText(t[1..]) + b);
      UnarySplits(s[0] as int, t[0] as int, OfText(s[1..]) + a, OfText(t[1..]) + b);
      OfTextSplits(s[1..], t[1..], a, b);
      assert s == [s[0]] + s[1..] && t == [t[0]] + t[1..];
    }
  }

  lemma {:induction false} OfTextsSplits(s: seq<string>, t: seq<string>, a: string, b: string)
    requires OfTexts(s) + a == OfTexts(t) + b
    ensures s == t && a == b
  {
    assert (OfTexts(s) + a)[0] == if s == [] then '.' else '1';
    assert (OfTexts(t) + b)[0] == if t == [] then '.' else '1';
    if s == [] {
      assert (OfTexts(s) + a)[1..] == a && (OfTexts(t) + b)[1..] == b;
    } else {
      assert (OfTexts(s) + a)[1..] == OfText(s[0]) + (OfTexts(s[1..]) + a);
      assert (OfTexts(t) + b)[1..] == OfText(t[0]) + (OfTexts(t[1..]) + b);
      OfTextSplits(s[0], t[0], OfTexts(s[1..]) + a, OfTexts(t[1..]) + b);
      OfTextsSplits(s[1..], t[1..], a, b);
      assert s == [s[0]] + s[1..] && t == [t[0]] + t[1..];
    }
  }

  lemma RegistrationParts(r: Registration, rest: string)
    ensures OfRegistration(r) + rest ==
      OfText(r.runnerId) + (OfTexts(r.roles) + (OfTexts(Listing(r.labels)) +
        (Unary(r.maxConcurrency) + (Unary(r.leaseTtlSeconds) + rest))))
  {
    Regroup(OfText(r.runnerId), OfTexts(r.roles), OfTexts(Listing(r.labels)), Unary(r.maxConcurrency),
            Unary(r.leaseTtlSeconds), rest);
  }

  lemma Regroup(a: string, b: string, c: string, d: string, e: string, rest: string)
    ensures (a + (b + (c + (d + e)))) + rest == a + (b + (c + (d + (e + rest))))
  {
    ConcatAssociative(a, b + (c + (d + e)), rest);
    ConcatAssociative(b, c + (d + e), rest);
    ConcatAssociative(c, d + e, rest);
    ConcatAssociative(d, e, rest);
  }

  lemma OfRegistrationSplits(r: Registration, q: Registration, a: string, b: string)
    requires OfRegistration(r) + a == OfRegistration(q) + b
    ensures r == q && a == b
  {
    var r4, q4 := Unary(r.leaseTtlSeconds) + a, Unary(q.leaseTtlSeconds) + b;
    var r3, q3 := Unary(r.maxConcurrency) + r4, Unary(q.maxConcurrency) + q4;
    var r2, q2 := OfTexts(Listing(r.labels)) + r3, OfTexts(Listing(q.labels)) + q3;
    var r1, q1 := OfTexts(r.roles) + r2, OfTexts(q.roles) + q2;
    RegistrationParts(r, a);
    RegistrationParts(q, b);
    OfTextSplits(r.runnerId, q.runnerId, r1, q1);
    OfTextsSplits(r.roles, q.roles, r2, q2);
    OfTextsSplits(Listing(r.labels), Listing(q.labels), r3, q3);
    ListingIsInverted(r.labels);
    ListingIsInverted(q.labels);
    UnarySplits(r.maxConcurrency, q.maxConcurrency, r4, q4);
    UnarySplits(r.leaseTtlSeconds, q.leaseTtlSeconds, a, b);
  }

  lemma OfHeartbeatSplits(h: Heartbeat, k: Heartbeat, a: string, b: string)
    requires OfHeartbeat(h) + a == OfHeartbeat(k) + b
    ensures h == k && a == b
  {
    var h2, k2 := Unary(h.capacityRemaining) + a, Unary(k.capacityRemaining) + b;
    var h1, k1 := Unary(h.runningTasks) + h2, Unary(k.runningTasks) + k2;
    assert OfHeartbeat(h) + a == OfText(h.runnerId) + h1;
    assert OfHeartbeat(k) + b == OfText(k.runnerId) + k1;
    OfTextSplits(h.runnerId, k.runnerId, h1, k1);
    UnarySplits(h.runningTasks, k.runningTasks, h2, k2);
    UnarySplits(h.capacityRemaining, k.capacityRemaining, a, b);
  }

  lemma BodyTells(e: Entry, f: Entry)
    requires Body(e) == Body(f)
    ensures e == f
  {
    assert Body(e)[0] == if e.Registered? then 'r' else 'h';
    assert Body(f)[0] == if f.Registered? then 'r' else 'h';
    var a, b := Unary(e.recordedAt), Unary(f.recordedAt);
    if e.Registered? {
      assert Body(e)[1..] == OfRegistration(e.registration) + a;
      assert Body(f)[1..] == OfRegistration(f.registration) + b;
      OfRegistrationSplits(e.registration, f.registration, a, b);
    } else {
      assert Body(e)[1..] == OfHeartbeat(e.heartbeat) + a;
      assert Body(f)[1..] == OfHeartbeat(f.heartbeat) + b;
      OfHeartbeatSplits(e.heartbeat, f.heartbeat, a, b);
    }
    assert a + "" == a && b + "" == b;
    UnarySplits(e.recordedAt, f.recordedAt, "", "");
  }

  /** There is a codec that gives what the journal asks for. */
  lemma FaithfulCodecExists() returns (c: Codec)
    ensures IsFaithful(c)
  {
    var body: Entry -> string := e => Body(e);
    forall e ensures IsPlain(body(e)) {
      BodyIsPlain(e);
    }
    forall e, f | body(e) == body(f) ensures e == f {
      BodyTells(e, f);
    }
    FramedIsFaithful(body);
    c := FramedCodec(body);
  }
}
