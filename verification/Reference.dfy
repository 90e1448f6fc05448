/**
 Payment references `optd-{product}-{gateway}-{ulid}` (internal/gateway/reference.go) and
 the shorter `optd-{product}-{ulid}` the TypeScript client prints.
 */
module Reference {
  import opened Prelude
  import opened Gateways

  const PREFIX: string := "optd"
  const DASH: char := '-'

  datatype Parsed = Parsed(product: string, gateway: Gateway, ulid: string)

  function BuildReference(product: string, gateway: Gateway, ulid: string): string {
    PREFIX + [DASH] + product + [DASH] + gateway + [DASH] + ulid
  }

  /** strings.Split with a one-character separator. */
  function Split(s: string): (parts: seq<string>)
    ensures |parts| >= 1
  {
    if s == "" then [""]
    else
      var rest := Split(s[1..]);
      if s[0] == DASH then [""] + rest else [[s[0]] + rest[0]] + rest[1..]
  }

  /** strings.Join with the same separator. */
  function Join(parts: seq<string>): string {
    if parts == [] then ""
    else if |parts| == 1 then parts[0]
    else parts[0] + [DASH] + Join(parts[1..])
  }

  function ParseReference(ref: string): Option<Parsed> {
    var parts := Split(ref);
    var n := |parts|;
    if n < 4 || parts[0] != PREFIX then None
    else if !Valid(parts[n - 2]) then None
    else
      var product := Join(parts[1..n - 2]);
      if product == "" then None
      else Some(Parsed(product, parts[n - 2], parts[n - 1]))
  }

  /** generateReference of the TypeScript client: no gateway segment. */
  function ClientReference(product: string, ulid: string): string {
    PREFIX + [DASH] + (if product == "" then "default" else product) + [DASH] + ulid
  }

  // ---------------------------------------------------------------- split and join

  lemma {:induction false} PartsAreDashFree(s: string)
    ensures forall p | p in Split(s) :: DASH !in p
  {
    if s != "" {
      PartsAreDashFree(s[1..]);
      var rest := Split(s[1..]);
      assert rest[0] in rest && forall p | p in rest[1..] :: p in rest;
    }
  }

  lemma {:induction false} SplitParts(s: string)
    ensures forall p | p in Split(s) :: DASH !in p
    ensures Join(Split(s)) == s
  {
    PartsAreDashFree(s);
    if s != "" {
      SplitParts(s[1..]);
      var rest := Split(s[1..]);
      assert s == [s[0]] + s[1..];
      if s[0] == DASH {
        assert ([""] + rest)[1..] == rest;
      } else {
        assert ([[s[0]] + rest[0]] + rest[1..])[1..] == rest[1..];
      }
    }
  }

  lemma {:induction false} SplitDashFree(s: string)
    requires DASH !in s
    ensures Split(s) == [s]
  {
    if s != "" {
      SplitDashFree(s[1..]);
      assert s == [s[0]] + s[1..];
    }
  }

  lemma SplitCons(c: char, t: string)
    ensures var rest := Split(t);
            Split([c] + t) == if c == DASH then [""] + rest else [[c] + rest[0]] + rest[1..]
  {
    assert ([c] + t)[1..] == t;
  }

  lemma {:induction false} SplitConcat(a: string, b: string)
    ensures Split(a + [DASH] + b) == Split(a) + Split(b)
  {
    hide Split;
    if a == "" {
      SplitDashFree(a);
      SplitCons(DASH, b);
      assert a + [DASH] + b == [DASH] + b;
    } else {
      var c, t := a[0], a[1..];
      assert a == [c] + t;
      assert a + [DASH] + b == [c] + (t + [DASH] + b);
      SplitConcat(t, b);
      SplitCons(c, t);
      SplitCons(c, t + [DASH] + b);
    }
  }

  lemma {:induction false} JoinConcat(a: seq<string>, b: seq<string>)
    requires a != [] && b != []
    ensures Join(a + b) == Join(a) + [DASH] + Join(b)
  {
    if |a| == 1 {
      assert (a + b)[1..] == b;
    } else {
      JoinConcat(a[1..], b);
      assert (a + b)[1..] == a[1..] + b;
    }
  }

  lemma SplitBuilt(product: string, gateway: Gateway, ulid: string)
    ensures Split(BuildReference(product, gateway, ulid))
         == [PREFIX] + Split(product) + Split(gateway) + Split(ulid)
  {
    SplitConcat(PREFIX + [DASH] + product + [DASH] + gateway, ulid);
    SplitConcat(PREFIX + [DASH] + product, gateway);
    SplitConcat(PREFIX, product);
    SplitDashFree(PREFIX);
  }

  // ---------------------------------------------------------------- round trips

  lemma ParseOfParts(ref: string, middle: seq<string>, gateway: Gateway, ulid: string)
    requires middle != []
    requires Split(ref) == [PREFIX] + middle + [gateway] + [ulid]
    ensures ParseReference(ref)
         == if Valid(gateway) && Join(middle) != "" then Some(Parsed(Join(middle), gateway, ulid)) else None
  {
    var parts := [PREFIX] + middle + [gateway] + [ulid];
    assert parts[1..|parts| - 2] == middle;
  }

  lemma ParseOfBuilt(product: string, gateway: Gateway, ulid: string)
    requires product != "" && Valid(gateway) && DASH !in ulid
    ensures ParseReference(BuildReference(product, gateway, ulid)) == Some(Parsed(product, gateway, ulid))
  {
    SplitBuilt(product, gateway, ulid);
    assert DASH !in HUBTEL && DASH !in PAYSTACK && DASH !in MOOLRE;
    SplitDashFree(gateway);
    SplitDashFree(ulid);
    SplitParts(product);
    ParseOfParts(BuildReference(product, gateway, ulid), Split(product), gateway, ulid);
  }

  /** Whatever parses is rebuilt character for character. */
  lemma BuildOfParsed(ref: string)
    requires ParseReference(ref).Some?
    ensures var p := ParseReference(ref).value;
            && BuildReference(p.product, p.gateway, p.ulid) == ref
            && p.product != "" && Valid(p.gateway) && DASH !in p.ulid
  {
    SplitParts(ref);
    var parts := Split(ref);
    var n := |parts|;
    var middle := parts[1..n - 2];
    assert parts == [PREFIX] + middle + [parts[n - 2]] + [parts[n - 1]];
    JoinConcat([PREFIX] + middle + [parts[n - 2]], [parts[n - 1]]);
    JoinConcat([PREFIX] + middle, [parts[n - 2]]);
    JoinConcat([PREFIX], middle);
    assert parts[n - 1] in parts;
  }

  /** The triple survives printing and parsing exactly when it is a legal one. */
  lemma RoundTripIff(product: string, gateway: Gateway, ulid: string)
    ensures ParseReference(BuildReference(product, gateway, ulid)) == Some(Parsed(product, gateway, ulid))
       <==> product != "" && Valid(gateway) && DASH !in ulid
  {
    if product != "" && Valid(gateway) && DASH !in ulid {
      ParseOfBuilt(product, gateway, ulid);
    } else if ParseReference(BuildReference(product, gateway, ulid)).Some? {
      BuildOfParsed(BuildReference(product, gateway, ulid));
    }
  }

  lemma BuildInjective(p1: string, g1: Gateway, u1: string, p2: string, g2: Gateway, u2: string)
    requires p1 != "" && Valid(g1) && DASH !in u1
    requires p2 != "" && Valid(g2) && DASH !in u2
    requires BuildReference(p1, g1, u1) == BuildReference(p2, g2, u2)
    ensures p1 == p2 && g1 == g2 && u1 == u2
  {
    ParseOfBuilt(p1, g1, u1);
    ParseOfBuilt(p2, g2, u2);
  }

  /**
   The server reads a client-side reference only when the product happens to end in
   `-{gateway}`; it then takes that suffix for the gateway.
   */
  lemma ClientReferenceParsesIff(product: string, ulid: string)
    requires DASH !in ulid
    ensures ParseReference(ClientReference(product, ulid)).Some?
       <==> exists q: string, g: Gateway :: q != "" && Valid(g) && product == q + [DASH] + g
  {
    var ref := ClientReference(product, ulid);
    if q: string, g: Gateway :| q != "" && Valid(g) && product == q + [DASH] + g {
      assert ref == BuildReference(q, g, ulid);
      ParseOfBuilt(q, g, ulid);
    }
    if ParseReference(ref).Some? {
      var p := ParseReference(ref).value;
      ClientReferenceShape(product, ulid);
      assert DASH !in "default";
      assert product == p.product + [DASH] + p.gateway;
      BuildOfParsed(ref);
    }
  }

  lemma ClientReferenceShape(product: string, ulid: string)
    requires DASH !in ulid
    requires ParseReference(ClientReference(product, ulid)).Some?
    ensures var p := ParseReference(ClientReference(product, ulid)).value;
            (if product == "" then "default" else product) == p.product + [DASH] + p.gateway
  {
    hide ParseReference, Valid;
    var shown := if product == "" then "default" else product;
    var p := ParseReference(ClientReference(product, ulid)).value;
    BuildOfParsed(ClientReference(product, ulid));
    SameHead(PREFIX + [DASH] + shown, ulid, PREFIX + [DASH] + p.product + [DASH] + p.gateway, p.ulid);
    var front := PREFIX + [DASH];
    assert (front + shown)[5..] == shown;
    assert front + p.product + [DASH] + p.gateway == front + (p.product + [DASH] + p.gateway);
    assert (front + (p.product + [DASH] + p.gateway))[5..] == p.product + [DASH] + p.gateway;
  }

  lemma SameHead(a: string, x: string, b: string, y: string)
    requires DASH !in x && DASH !in y && a + [DASH] + x == b + [DASH] + y
    ensures a == b && x == y
  {
    hide Split;
    LastPart(a, x);
    LastPart(b, y);
    assert a + [DASH] + x == a + ([DASH] + x) && b + [DASH] + x == b + ([DASH] + x);
    CancelSuffix(a, b, [DASH] + x);
  }

  lemma LastPart(head: string, ulid: string)
    requires DASH !in ulid
    ensures var parts := Split(head + [DASH] + ulid); parts[|parts| - 1] == ulid
  {
    SplitConcat(head, ulid);
    SplitDashFree(ulid);
  }

  lemma CancelSuffix(a: string, b: string, c: string)
    requires a + c == b + c
    ensures a == b
  {
    assert |a| == |b|;
    assert a == (a + c)[..|a|];
    assert b == (b + c)[..|b|];
  }
}
