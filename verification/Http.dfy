/** The client address behind trusted proxies, and the bounded body reader. */
module Http {
  import opened Wrappers
  import opened Strings
  import opened ByteStrings

  function TrimAll(parts: seq<string>): seq<string> {
    if parts == [] then [] else [Trim(parts[0])] + TrimAll(parts[1..])
  }

  function NonEmpty(parts: seq<string>): seq<string> {
    if parts == [] then [] else (if parts[0] != "" then [parts[0]] else []) + NonEmpty(parts[1..])
  }

  /** The entries of a forwarded-for header. */
  function Entries(header: string): seq<string> {
    NonEmpty(TrimAll(Split(',', header)))
  }

  /** `None` is "no trustworthy address", never an identity. */
  function ClientIp(trustProxyHeaders: bool, hops: nat, forwarded: Option<string>, realIp: Option<string>)
    : Option<string>
  {
    if !trustProxyHeaders then None
    else if forwarded.Some? && forwarded.value != "" then
      var parts := Entries(forwarded.value);
      if hops < |parts| then Some(parts[|parts| - 1 - hops]) else None
    else if hops == 0 then realIp
    else None
  }

  lemma {:induction false} TrimAllAppend(a: seq<string>, b: seq<string>)
    ensures TrimAll(a + b) == TrimAll(a) + TrimAll(b)
  {
    if a == [] {
      assert a + b == b;
    } else {
      assert (a + b)[1..] == a[1..] + b;
      TrimAllAppend(a[1..], b);
    }
  }

  lemma {:induction false} NonEmptyAppend(a: seq<string>, b: seq<string>)
    ensures NonEmpty(a + b) == NonEmpty(a) + NonEmpty(b)
  {
    if a == [] {
      assert a + b == b;
    } else {
      assert (a + b)[1..] == a[1..] + b;
      NonEmptyAppend(a[1..], b);
    }
  }

  /** Entries put in front stay in front. */
  lemma EntriesJoin(x: string, y: string)
    ensures Entries(x + [','] + y) == Entries(x) + Entries(y)
  {
    SplitJoin(',', x, y);
    TrimAllAppend(Split(',', x), Split(',', y));
    NonEmptyAppend(TrimAll(Split(',', x)), TrimAll(Split(',', y)));
  }

  function Repeated(n: nat): string {
    if n == 0 then "x" else Repeated(n - 1) + [','] + "x"
  }

  lemma {:induction false} RepeatedEntries(n: nat)
    ensures |Entries(Repeated(n))| == n + 1
    ensures forall i :: 0 <= i <= n ==> Entries(Repeated(n))[i] == "x"
  {
    assert IndexOf(',', "x") == 1;
    assert Split(',', "x") == ["x"];
    assert TrimStart("x") == "x" && TrimEnd("x") == "x";
    assert TrimAll(["x"]) == ["x"] && NonEmpty(["x"]) == ["x"];
    if n > 0 {
      RepeatedEntries(n - 1);
      EntriesJoin(Repeated(n - 1), "x");
    }
  }

  /**
   * What a caller prepends never shows, exactly when the trusted suffix is long enough: if it has
   * more than `hops` entries nothing put before it changes the address, and if it has not,
   * something does.
   */
  lemma PrependingIsIgnoredExactly(hops: nat, y: string, realIp: Option<string>)
    requires y != ""
    ensures (forall x :: ClientIp(true, hops, Some(x + [','] + y), realIp) == ClientIp(true, hops, Some(y), realIp))
       <==> hops < |Entries(y)|
  {
    if hops < |Entries(y)| {
      forall x ensures ClientIp(true, hops, Some(x + [','] + y), realIp) == ClientIp(true, hops, Some(y), realIp) {
        EntriesJoin(x, y);
      }
    } else {
      var x := Repeated(hops);
      EntriesJoin(x, y);
      RepeatedEntries(hops);
      assert ClientIp(true, hops, Some(x + [','] + y), realIp).Some?;
    }
  }

  /** A chain shorter than configured yields nothing, whatever `x-real-ip` claims. */
  lemma ShortChainYieldsNone(hops: nat, y: string, realIp: Option<string>)
    requires y != "" && |Entries(y)| <= hops
    ensures ClientIp(true, hops, Some(y), realIp).None?
  {
  }

  // The bounded reader, over the chunks a stream delivers.

  function Flatten(chunks: seq<Bytes>): Bytes {
    if chunks == [] then [] else Flatten(chunks[..|chunks| - 1]) + chunks[|chunks| - 1]
  }

  lemma {:induction false} FlattenPrefix(chunks: seq<Bytes>, n: nat)
    requires n <= |chunks|
    ensures |Flatten(chunks[..n])| <= |Flatten(chunks)|
  {
    if n < |chunks| {
      assert chunks[..|chunks| - 1][..n] == chunks[..n];
      FlattenPrefix(chunks[..|chunks| - 1], n);
    } else {
      assert chunks[..n] == chunks;
    }
  }

  /** What a request body delivers before it ends, and whether it ends well. */
  datatype Stream = Stream(chunks: seq<Bytes>, endsWell: bool)

  /** An incremental text decoder: it takes a byte at a time and may hold back an unfinished character. */
  datatype Decoder<!S> = Decoder(start: S, feed: (S, Byte) -> Fed<S>, flush: S -> string)
  datatype Fed<S> = Fed(state: S, text: string)

  function FeedAll<S>(d: Decoder<S>, s: S, bytes: Bytes): Fed<S> {
    if bytes == [] then Fed(s, "")
    else
      var before := FeedAll(d, s, bytes[..|bytes| - 1]);
      var last := d.feed(before.state, bytes[|bytes| - 1]);
      Fed(last.state, before.text + last.text)
  }

  /** The text of a whole body. */
  function Decode<S>(d: Decoder<S>, bytes: Bytes): string {
    var fed := FeedAll(d, d.start, bytes);
    fed.text + d.flush(fed.state)
  }

  /** Where a body is cut into chunks does not show: a character split across two stays whole. */
  lemma {:induction false} FeedJoin<S>(d: Decoder<S>, s: S, x: Bytes, y: Bytes)
    ensures var first := FeedAll(d, s, x);
            var second := FeedAll(d, first.state, y);
            FeedAll(d, s, x + y) == Fed(second.state, first.text + second.text)
  {
    if y == [] {
      assert x + y == x;
    } else {
      var front := y[..|y| - 1];
      assert (x + y)[..|x + y| - 1] == x + front;
      FeedJoin(d, s, x, front);
    }
  }

  /**
   * Returns the text of the whole body exactly when it fits and the stream ends well, and on an
   * oversized body stops at the first chunk that crosses the bound.
   */
  method ReadBounded<S>(d: Decoder<S>, body: Stream, maxBytes: nat) returns (out: Option<string>, read: nat)
    ensures out == if body.endsWell && |Flatten(body.chunks)| <= maxBytes
                   then Some(Decode(d, Flatten(body.chunks))) else None
    ensures read <= |body.chunks|
    ensures |Flatten(body.chunks)| <= maxBytes ==> read == |body.chunks|
    ensures |Flatten(body.chunks)| > maxBytes ==>
              1 <= read && |Flatten(body.chunks[..read - 1])| <= maxBytes < |Flatten(body.chunks[..read])|
  {
    var chunks := body.chunks;
    var total := 0;
    var text := "";
    var state := d.start;
    read := 0;
    while read < |chunks|
      invariant 0 <= read <= |chunks|
      invariant Fed(state, text) == FeedAll(d, d.start, Flatten(chunks[..read]))
      invariant total == |Flatten(chunks[..read])| <= maxBytes
    {
      var value := chunks[read];
      assert chunks[..read + 1][..read] == chunks[..read];
      FeedJoin(d, d.start, Flatten(chunks[..read]), value);
      total := total + |value|;
      read := read + 1;
      if total > maxBytes {
        FlattenPrefix(chunks, read);
        return None, read;
      }
      var fed := FeedAll(d, state, value);
      state, text := fed.state, text + fed.text;
    }
    assert chunks[..read] == chunks;
    if !body.endsWell { return None, read; }
    out := Some(text + d.flush(state));
  }
}
