/** The resilient fetch of `tryLetterboxd` (src/lib/letterboxd.ts):
    URL normalisation, an origin check, a try limit, and retry with
    exponential backoff for a fixed set of transport errors.

    The network is a script: the outcome of the 1st, 2nd, ... request.
    A run reports what the caller sees, how many requests were made and
    the backoff delays that were requested. */
module Fetcher {
  import opened Wrappers
  import opened JsText
  import opened Failures

  const MAX_TRIES: nat := 5
  const ORIGIN := "https://letterboxd.com"
  const HOST := "letterboxd.com"

  /** The error codes worth retrying. */
  const RETRYABLE_ERRORS: seq<string> := ["ECONNRESET", "ENOTFOUND"]

  /** What one request does. */
  datatype Outcome = Response(data: string) | Failure(thrown: Thrown)

  /** What the caller sees. `ScriptEnd` means the model's network script
      ran out while the fetch was still retrying. */
  datatype FetchResult = Fetched(data: string) | FetchThrew(thrown: Thrown) | ScriptEnd

  datatype FetchRun = FetchRun(result: FetchResult, requests: nat, waits: seq<nat>)

  /** A relative URL is put under the site's origin. */
  function NormaliseUrl(url: string): (r: string)
    ensures StartsWith(url, "http") ==> r == url
    ensures !StartsWith(url, "http") ==> r == ORIGIN + url
    ensures StartsWith(r, "http")
  {
    if StartsWith(url, "http") then url else ORIGIN + url
  }

  /** `url.split('/')[2] === "letterboxd.com"`; a URL with fewer than
      three pieces has no third piece and fails. */
  predicate AllowedHost(url: string) {
    var parts := Split(url, '/');
    |parts| >= 3 && parts[2] == HOST
  }

  /** The retry condition: an axios error whose code is a retryable string. */
  predicate Retryable(t: Thrown) {
    IsAxios(t) && t.error.code.Some? && t.error.code.value in RETRYABLE_ERRORS
  }

  function Pow2(n: nat): (r: nat)
    ensures r >= 1
  {
    if n == 0 then 1 else 2 * Pow2(n - 1)
  }

  function InvalidUrlError(url: string): Thrown {
    Raised(PlainError("Invalid URL passed to tryLetterboxd " + url))
  }

  function ExceededError(url: string): Thrown {
    Raised(PlainError("Exceeded max tries (" + NatString(MAX_TRIES) + ") while attempting to reach " + url))
  }

  /** `tryLetterboxd` as written: the retry passes `tries++`, whose value
      is the old count, so every retry starts with the same `tries`. */
  function TryLetterboxd(url: string, tries: nat, net: seq<Outcome>): (run: FetchRun)
    decreases |net|
  {
    var u := NormaliseUrl(url);
    if !AllowedHost(u) then FetchRun(FetchThrew(InvalidUrlError(u)), 0, [])
    else if tries >= MAX_TRIES then FetchRun(FetchThrew(ExceededError(u)), 0, [])
    else if net == [] then FetchRun(ScriptEnd, 0, [])
    else match net[0]
      case Response(data) => FetchRun(Fetched(data), 1, [])
      case Failure(t) =>
        if Retryable(t) then
          var rest := TryLetterboxd(u, tries, net[1..]);
          FetchRun(rest.result, rest.requests + 1, [Pow2(tries)] + rest.waits)
        else FetchRun(FetchThrew(t), 1, [])
  }

  /** `tryLetterboxd` with the counter advanced on each retry, as the
      try limit evidently intends. */
  function TryLetterboxdBounded(url: string, tries: nat, net: seq<Outcome>): (run: FetchRun)
    decreases |net|
  {
    var u := NormaliseUrl(url);
    if !AllowedHost(u) then FetchRun(FetchThrew(InvalidUrlError(u)), 0, [])
    else if tries >= MAX_TRIES then FetchRun(FetchThrew(ExceededError(u)), 0, [])
    else if net == [] then FetchRun(ScriptEnd, 0, [])
    else match net[0]
      case Response(data) => FetchRun(Fetched(data), 1, [])
      case Failure(t) =>
        if Retryable(t) then
          var rest := TryLetterboxdBounded(u, tries + 1, net[1..]);
          FetchRun(rest.result, rest.requests + 1, [Pow2(tries)] + rest.waits)
        else FetchRun(FetchThrew(t), 1, [])
  }

  /** The third `/`-piece of `scheme//host/rest` is the host. */
  lemma HostPiece(scheme: string, host: string, rest: string)
    requires '/' !in scheme && '/' !in host
    ensures |Split(scheme + "//" + host + "/" + rest, '/')| >= 3
    ensures Split(scheme + "//" + host + "/" + rest, '/')[2] == host
  {
    assert scheme + "//" + host + "/" + rest == scheme + ['/'] + ("" + ['/'] + (host + ['/'] + rest));
    SplitAtSeparator(scheme, '/', "" + ['/'] + (host + ['/'] + rest));
    SplitAtSeparator("", '/', host + ['/'] + rest);
    SplitAtSeparator(host, '/', rest);
  }

  /** A site-relative path beginning with `/` passes the origin check. */
  lemma RelativePathAllowed(path: string)
    ensures AllowedHost(NormaliseUrl("/" + path))
  {
    var u := "/" + path;
    assert !StartsWith(u, "http") by {
      assert u[0] == '/';
    }
    assert ORIGIN == "https:" + "//" + HOST;
    assert ORIGIN + u == "https:" + "//" + HOST + "/" + path;
    HostPiece("https:", HOST, path);
  }

  /** The third piece of a URL of another host is that host. */
  lemma ForeignHostPieces()
    ensures NormaliseUrl("https://evil.example/x") == "https://evil.example/x"
    ensures !AllowedHost("https://evil.example/x")
  {
    var u := "https://evil.example/x";
    assert StartsWith(u, "http") by { assert u[..4] == "http"; }
    assert u == "https:" + "//" + "evil.example" + "/" + "x";
    HostPiece("https:", "evil.example", "x");
  }

  /** A URL of another host is refused before any request. */
  lemma ForeignHostRefused(tries: nat, net: seq<Outcome>)
    ensures TryLetterboxd("https://evil.example/x", tries, net)
         == FetchRun(FetchThrew(InvalidUrlError("https://evil.example/x")), 0, [])
  {
    ForeignHostPieces();
  }

  /** At or over the limit, the fetch throws without a request. */
  lemma TryLimitChecked(url: string, tries: nat, net: seq<Outcome>)
    requires AllowedHost(NormaliseUrl(url)) && tries >= MAX_TRIES
    ensures TryLetterboxd(url, tries, net) == FetchRun(FetchThrew(ExceededError(NormaliseUrl(url))), 0, [])
    ensures TryLetterboxdBounded(url, tries, net) == TryLetterboxd(url, tries, net)
  {
  }

  /** A first request that fails with anything but a retryable error is
      re-thrown unchanged, after exactly one request. */
  lemma NonRetryableRethrown(url: string, tries: nat, t: Thrown, net: seq<Outcome>)
    requires AllowedHost(NormaliseUrl(url)) && tries < MAX_TRIES && !Retryable(t)
    ensures TryLetterboxd(url, tries, [Failure(t)] + net) == FetchRun(FetchThrew(t), 1, [])
  {
    assert ([Failure(t)] + net)[0] == Failure(t);
  }

  /** All transport failures, retryable. */
  predicate AllRetryable(net: seq<Outcome>) {
    forall k :: 0 <= k < |net| ==> net[k].Failure? && Retryable(net[k].thrown)
  }

  lemma NormaliseIdempotent(url: string)
    ensures NormaliseUrl(NormaliseUrl(url)) == NormaliseUrl(url)
  {
  }

  /** As written, a run of retryable failures is retried for as long as
      the network keeps failing: one request per failure, each after the
      same delay `2^tries`, and the try limit never fires. */
  lemma {:induction false} AsWrittenNeverExceeds(url: string, tries: nat, net: seq<Outcome>)
    requires AllowedHost(NormaliseUrl(url)) && tries < MAX_TRIES && AllRetryable(net)
    ensures TryLetterboxd(url, tries, net).result == ScriptEnd
    ensures TryLetterboxd(url, tries, net).requests == |net|
    ensures forall k :: 0 <= k < |TryLetterboxd(url, tries, net).waits| ==> TryLetterboxd(url, tries, net).waits[k] == Pow2(tries)
    ensures |TryLetterboxd(url, tries, net).waits| == |net|
    decreases |net|
  {
    if net != [] {
      NormaliseIdempotent(url);
      assert AllRetryable(net[1..]) by {
        forall k | 0 <= k < |net[1..]| ensures net[1..][k].Failure? && Retryable(net[1..][k].thrown) {
          assert net[1..][k] == net[k + 1];
        }
      }
      AsWrittenNeverExceeds(NormaliseUrl(url), tries, net[1..]);
    }
  }

  /** The evident intent: at most `MAX_TRIES - tries` requests are made,
      whatever the network does. */
  lemma {:induction false} BoundedRequests(url: string, tries: nat, net: seq<Outcome>)
    ensures TryLetterboxdBounded(url, tries, net).requests <= if tries >= MAX_TRIES then 0 else MAX_TRIES - tries
    ensures |TryLetterboxdBounded(url, tries, net).waits| <= TryLetterboxdBounded(url, tries, net).requests
    decreases |net|
  {
    if net != [] && AllowedHost(NormaliseUrl(url)) && tries < MAX_TRIES && net[0].Failure? && Retryable(net[0].thrown) {
      BoundedRequests(NormaliseUrl(url), tries + 1, net[1..]);
    }
  }

  /** The evident intent under a failing network: from a fresh start, five
      requests with delays 1, 2, 4, 8 and 16 ms, then "Exceeded max tries". */
  lemma CorrectedBackoff(url: string, net: seq<Outcome>)
    requires AllowedHost(NormaliseUrl(url)) && |net| >= 5 && AllRetryable(net)
    ensures TryLetterboxdBounded(url, 0, net)
         == FetchRun(FetchThrew(ExceededError(NormaliseUrl(url))), 5, [1, 2, 4, 8, 16])
  {
    var u := NormaliseUrl(url);
    NormaliseIdempotent(url);
    assert net[0].Failure? && Retryable(net[0].thrown);
    assert net[1..][0] == net[1];
    assert net[1..][1..][0] == net[2];
    assert net[1..][1..][1..][0] == net[3];
    assert net[1..][1..][1..][1..][0] == net[4];
    var n5 := net[1..][1..][1..][1..][1..];
    assert TryLetterboxdBounded(u, 5, n5) == FetchRun(FetchThrew(ExceededError(u)), 0, []);
    assert TryLetterboxdBounded(u, 4, net[1..][1..][1..][1..]) == FetchRun(FetchThrew(ExceededError(u)), 1, [16]);
    assert TryLetterboxdBounded(u, 3, net[1..][1..][1..]) == FetchRun(FetchThrew(ExceededError(u)), 2, [8, 16]);
    assert TryLetterboxdBounded(u, 2, net[1..][1..]) == FetchRun(FetchThrew(ExceededError(u)), 3, [4, 8, 16]);
    assert TryLetterboxdBounded(u, 1, net[1..]) == FetchRun(FetchThrew(ExceededError(u)), 4, [2, 4, 8, 16]);
  }

  /** The discrepancy on a concrete input: six connection resets. As
      written, all six are requested (more than `MAX_TRIES`) and the fetch
      is still retrying; corrected, it stops after five and throws. */
  lemma SixResetsExample()
    ensures var reset := Failure(Raised(AxiosError("reset", Some("ECONNRESET"), None)));
            var net := [reset, reset, reset, reset, reset, reset];
            TryLetterboxd("/film/x/", 0, net).requests == 6 > MAX_TRIES
            && TryLetterboxd("/film/x/", 0, net).result == ScriptEnd
            && TryLetterboxdBounded("/film/x/", 0, net).requests == 5
            && TryLetterboxdBounded("/film/x/", 0, net).result.FetchThrew?
  {
    var reset := Failure(Raised(AxiosError("reset", Some("ECONNRESET"), None)));
    var net := [reset, reset, reset, reset, reset, reset];
    assert "/film/x/" == "/" + "film/x/";
    RelativePathAllowed("film/x/");
    assert AllRetryable(net);
    AsWrittenNeverExceeds("/film/x/", 0, net);
    CorrectedBackoff("/film/x/", net);
  }
}
