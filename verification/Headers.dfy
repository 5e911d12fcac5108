/** Message headers across the Kafka hop: claims to map, map to list in any iteration order, list back to map. */
module Headers {

  datatype Claims = Claims(userID: string, username: string, email: string, role: string)

  const HEADER_USER_ID := "x-user-id"
  const HEADER_USERNAME := "x-username"
  const HEADER_EMAIL := "x-email"
  const HEADER_ROLE := "x-role"
  const HEADER_ERROR := "x-error"

  type Metadata = map<string, string>

  datatype Header = Header(key: string, value: string)

  function Get(md: Metadata, key: string): string {
    if key in md then md[key] else ""
  }

  function FromMetadata(md: Metadata): Claims {
    Claims(Get(md, HEADER_USER_ID), Get(md, HEADER_USERNAME), Get(md, HEADER_EMAIL), Get(md, HEADER_ROLE))
  }

  /** The claim that a key carries. */
  function Claim(c: Claims, key: string): string {
    if key == HEADER_USER_ID then c.userID
    else if key == HEADER_USERNAME then c.username
    else if key == HEADER_EMAIL then c.email
    else if key == HEADER_ROLE then c.role
    else ""
  }

  /** Only non-empty claims are written. */
  method ToMetadata(c: Claims) returns (md: Metadata)
    ensures forall k :: (k in md <==> Claim(c, k) != "") && (k in md ==> md[k] == Claim(c, k))
  {
    md := map[];
    if c.userID != "" {
      md := md[HEADER_USER_ID := c.userID];
    }
    if c.username != "" {
      md := md[HEADER_USERNAME := c.username];
    }
    if c.email != "" {
      md := md[HEADER_EMAIL := c.email];
    }
    if c.role != "" {
      md := md[HEADER_ROLE := c.role];
    }
  }

  /** One of the orders in which a Go map may be ranged over. */
  ghost predicate Enumerates(order: seq<string>, m: Metadata) {
    && (forall k :: k in order <==> k in m)
    && (forall i, j | 0 <= i < j < |order| :: order[i] != order[j])
  }

  lemma OneMore(order: seq<string>, i: nat)
    requires i < |order|
    ensures order[i] in order && forall k :: k in order[..i + 1] <==> k in order[..i] || k == order[i]
  {
    assert order[..i + 1] == order[..i] + [order[i]];
  }

  /** PublishUserCreated: the claims over the trace headers, key by key in iteration order. */
  method Overlay(trace: Metadata, md: Metadata, order: seq<string>) returns (headers: Metadata)
    requires Enumerates(order, md)
    ensures headers == trace + md
  {
    assert forall k | k in order :: k in md;
    headers := trace;
    for i := 0 to |order|
      invariant forall k :: k in headers <==> k in trace || k in order[..i]
      invariant forall k | k in headers :: headers[k] == if k in order[..i] then md[k] else trace[k]
    {
      OneMore(order, i);
      headers := headers[order[i] := md[order[i]]];
    }
    assert order[..|order|] == order;
  }

  /** The header list that carries a map, in some iteration order. */
  function Listed(m: Metadata, order: seq<string>): (hs: seq<Header>)
    requires forall k | k in order :: k in m
    ensures |hs| == |order|
  {
    seq(|order|, i requires 0 <= i < |order| => Header(order[i], m[order[i]]))
  }

  /** The map that a header list stands for: later headers win. */
  function Rebuilt(hs: seq<Header>): Metadata {
    if hs == [] then map[] else Rebuilt(hs[..|hs| - 1])[hs[|hs| - 1].key := hs[|hs| - 1].value]
  }

  /** PublishWithMetadata's append loop. */
  method AppendHeaders(m: Metadata, order: seq<string>) returns (hs: seq<Header>)
    requires Enumerates(order, m)
    ensures hs == Listed(m, order)
  {
    hs := [];
    for i := 0 to |order|
      invariant |hs| == i
      invariant forall j | 0 <= j < i :: hs[j] == Listed(m, order)[j]
    {
      assert order[i] in m;
      hs := hs + [Header(order[i], m[order[i]])];
    }
  }

  /** consumeLoop's rebuild loop. */
  method RebuildHeaders(hs: seq<Header>) returns (m: Metadata)
    ensures m == Rebuilt(hs)
  {
    m := map[];
    for i := 0 to |hs|
      invariant m == Rebuilt(hs[..i])
    {
      assert hs[..i + 1][..i] == hs[..i];
      m := m[hs[i].key := hs[i].value];
    }
    assert hs[..|hs|] == hs;
  }

  /** The consumer rebuilds the map the publisher had, whatever order either side ranged over its maps. */
  lemma {:induction false} ListingRoundTrip(m: Metadata, order: seq<string>)
    requires Enumerates(order, m)
    ensures Rebuilt(Listed(m, order)) == m
  {
    RebuiltPrefix(m, order, |order|);
    assert Listed(m, order)[..|order|] == Listed(m, order);
    assert order[..|order|] == order;
  }

  lemma {:induction false} RebuiltPrefix(m: Metadata, order: seq<string>, n: nat)
    requires n <= |order| && forall k | k in order :: k in m
    ensures var r := Rebuilt(Listed(m, order)[..n]);
        forall k :: (k in r <==> k in order[..n]) && (k in r ==> r[k] == m[k])
  {
    if n > 0 {
      RebuiltPrefix(m, order, n - 1);
      assert Listed(m, order)[..n][..n - 1] == Listed(m, order)[..n - 1];
      assert order[..n] == order[..n - 1] + [order[n - 1]];
    }
  }

  /** The dead-letter list: every header of the delivery, then the error. */
  function DeadLetterHeaders(m: Metadata, order: seq<string>, error: string): seq<Header>
    requires forall k | k in order :: k in m
  {
    Listed(m, order) + [Header(HEADER_ERROR, error)]
  }

  /** A dead letter stands for the delivery's headers with the newest error, even if it carried an older one. */
  lemma DeadLetterCarriesNewestError(m: Metadata, order: seq<string>, error: string)
    requires Enumerates(order, m)
    ensures Rebuilt(DeadLetterHeaders(m, order, error)) == m[HEADER_ERROR := error]
  {
    var hs := DeadLetterHeaders(m, order, error);
    ListingRoundTrip(m, order);
    assert hs[..|hs| - 1] == Listed(m, order);
  }

  ghost predicate IsMetadataOf(md: Metadata, c: Claims) {
    forall k :: (k in md <==> Claim(c, k) != "") && (k in md ==> md[k] == Claim(c, k))
  }

  /** The names on the wire. */
  lemma KeysOnTheWire(c: Claims, md: Metadata)
    requires IsMetadataOf(md, c)
    ensures Get(md, "x-user-id") == c.userID && Get(md, "x-username") == c.username
    ensures Get(md, "x-email") == c.email && Get(md, "x-role") == c.role
    ensures md.Keys <= {"x-user-id", "x-username", "x-email", "x-role"}
  {
    KeysDiffer();
    assert forall k :: k in md ==> Claim(c, k) != "";
  }

  /** A trace header under a claim key shows through exactly where the claim is empty. */
  lemma ClaimsSurviveExactly(c: Claims, md: Metadata, trace: Metadata, order: seq<string>)
    requires IsMetadataOf(md, c) && Enumerates(order, trace + md)
    ensures FromMetadata(Rebuilt(Listed(trace + md, order))) == c <==>
            forall k | k in {HEADER_USER_ID, HEADER_USERNAME, HEADER_EMAIL, HEADER_ROLE} :: Claim(c, k) == "" ==>
                Get(trace, k) == ""
  {
    ListingRoundTrip(trace + md, order);
    KeysDiffer();
    var h := trace + md;
    assert forall k :: Get(h, k) == if Claim(c, k) != "" then Claim(c, k) else Get(trace, k);
  }

  lemma KeysDiffer()
    ensures HEADER_USER_ID != HEADER_USERNAME && HEADER_USER_ID != HEADER_EMAIL && HEADER_USER_ID != HEADER_ROLE
    ensures HEADER_USERNAME != HEADER_EMAIL && HEADER_USERNAME != HEADER_ROLE && HEADER_EMAIL != HEADER_ROLE
  {
    assert HEADER_USER_ID[2] == 'u' && HEADER_USERNAME[2] == 'u' && HEADER_EMAIL[2] == 'e' && HEADER_ROLE[2] == 'r';
    assert |HEADER_USER_ID| == 9 && |HEADER_USERNAME| == 10;
  }

  /** Claims survive the hop: publish over trace headers that use none of the claim keys, list, rebuild, read. */
  method ClaimsAcrossTheHop(c: Claims, trace: Metadata, overlayOrder: Metadata -> seq<string>,
      listOrder: Metadata -> seq<string>)
    returns (received: Claims)
    requires forall m :: Enumerates(overlayOrder(m), m) && Enumerates(listOrder(m), m)
    requires HEADER_USER_ID !in trace && HEADER_USERNAME !in trace && HEADER_EMAIL !in trace && HEADER_ROLE !in trace
    ensures received == c
  {
    var md := ToMetadata(c);
    var headers := Overlay(trace, md, overlayOrder(md));
    var list := AppendHeaders(headers, listOrder(headers));
    var rebuilt := RebuildHeaders(list);
    received := FromMetadata(rebuilt);
    ClaimsSurviveExactly(c, md, trace, listOrder(headers));
  }
}
