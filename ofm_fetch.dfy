/** Fetching one vector tile (`send_ofm_request`, src/ofm_api.rs): a disk
    cache in front of the OpenFreeMap tile server, with a retry loop for
    rate-limited requests.

    The disk is a map from file name to contents. The network is a script:
    the replies that successive calls receive, in order. The source retries
    for as long as the server answers 429 or the call fails, which for some
    scripts is forever; a script is finite, so the model reports the case
    where every scripted reply was consumed without an answer as
    `StillRetrying`. */
module OfmFetch {
  import opened Numeric

  // ---------------------------------------------------------------------
  // Decimal numbers and the cache file name

  function DigitChar(d: nat): (c: char)
    requires d < 10
    ensures '0' <= c <= '9'
  {
    ('0' as int + d) as char
  }

  function DigitValue(c: char): (r: nat)
    requires '0' <= c <= '9'
  {
    c as int - '0' as int
  }

  predicate AllDigits(s: string): (b: bool)
  {
    forall i :: 0 <= i < |s| ==> '0' <= s[i] <= '9'
  }

  /** Rust's `{}` formatting of an unsigned integer: decimal digits, most
      significant first, with no leading zero. */
  function Decimal(n: nat): (s: string)
    ensures 1 <= |s|
    ensures AllDigits(s)
    ensures |s| > 1 ==> s[0] != '0'
    decreases n
  {
    if n < 10 then [DigitChar(n)] else Decimal(n / 10) + [DigitChar(n % 10)]
  }

  /** Reading decimal digits back as a number. */
  function ParseDecimal(s: string): (r: nat)
    requires AllDigits(s)
  {
    if s == [] then 0 else 10 * ParseDecimal(s[..|s| - 1]) + DigitValue(s[|s| - 1])
  }

  lemma {:induction false} DecimalRoundTrip(n: nat)
    ensures ParseDecimal(Decimal(n)) == n
    decreases n
  {
    if n >= 10 {
      var s := Decimal(n);
      assert s[..|s| - 1] == Decimal(n / 10);
      DecimalRoundTrip(n / 10);
    }
  }

  /** Different numbers are written differently. */
  lemma DecimalInjective(a: nat, b: nat)
    requires Decimal(a) == Decimal(b)
    ensures a == b
  {
    DecimalRoundTrip(a);
    DecimalRoundTrip(b);
  }

  /** `cache_dir`. */
  const CacheDir: string := "cache"

  /** The `{zoom}_{x}_{y}` part of the cache file name. */
  function TileKey(zoom: nat, x: nat, y: nat): (r: string)
  {
    Decimal(zoom) + "_" + Decimal(x) + "_" + Decimal(y)
  }

  /** `cache_file`: `{cache_dir}/{zoom}_{x}_{y}.pbf`. */
  function CacheFile(zoom: nat, x: nat, y: nat): (r: string)
  {
    CacheDir + "/" + TileKey(zoom, x, y) + ".pbf"
  }

  /** If a + [sep] + b and c + [sep] + d are the same string and neither a
      nor c contains sep, the split agrees. */
  lemma SplitAtSeparator(a: string, b: string, c: string, d: string, sep: char)
    requires sep !in a && sep !in c
    requires a + [sep] + b == c + [sep] + d
    ensures a == c && b == d
  {
    var s := a + [sep] + b;
    assert forall i :: 0 <= i < |a| ==> a[i] != sep;
    assert forall i :: 0 <= i < |c| ==> c[i] != sep;
    assert forall i :: 0 <= i < |a| ==> s[i] == a[i];
    assert forall i :: 0 <= i < |c| ==> s[i] == c[i];
    assert s[|a|] == sep && s[|c|] == sep;
    assert a == s[..|a|] == c;
    assert b == s[|a| + 1..] == d;
  }

  lemma NoSeparatorInDecimal(n: nat, sep: char)
    requires !('0' <= sep <= '9')
    ensures sep !in Decimal(n)
  {
  }

  /** Distinct tiles have distinct keys. */
  lemma TileKeyInjective(zoom: nat, x: nat, y: nat, zoom': nat, x': nat, y': nat)
    requires TileKey(zoom, x, y) == TileKey(zoom', x', y')
    ensures zoom == zoom' && x == x' && y == y'
  {
    NoSeparatorInDecimal(zoom, '_');
    NoSeparatorInDecimal(zoom', '_');
    NoSeparatorInDecimal(x, '_');
    NoSeparatorInDecimal(x', '_');
    var rest, rest' := Decimal(x) + "_" + Decimal(y), Decimal(x') + "_" + Decimal(y');
    assert TileKey(zoom, x, y) == Decimal(zoom) + ['_'] + rest;
    assert TileKey(zoom', x', y') == Decimal(zoom') + ['_'] + rest';
    SplitAtSeparator(Decimal(zoom), rest, Decimal(zoom'), rest', '_');
    SplitAtSeparator(Decimal(x), Decimal(y), Decimal(x'), Decimal(y'), '_');
    DecimalInjective(zoom, zoom');
    DecimalInjective(x, x');
    DecimalInjective(y, y');
  }

  lemma AffixCancel(p: string, m: string, m': string, q: string)
    requires p + m + q == p + m' + q
    ensures m == m'
  {
    assert m == (p + m + q)[|p|..|p| + |m|];
    assert m' == (p + m' + q)[|p|..|p| + |m'|];
  }

  /** Distinct tiles never share a cache file. */
  lemma CacheFileInjective(zoom: nat, x: nat, y: nat, zoom': nat, x': nat, y': nat)
    requires CacheFile(zoom, x, y) == CacheFile(zoom', x', y')
    ensures zoom == zoom' && x == x' && y == y'
  {
    AffixCancel(CacheDir + "/", TileKey(zoom, x, y), TileKey(zoom', x', y'), ".pbf");
    TileKeyInjective(zoom, x, y, zoom', x', y');
  }

  // ---------------------------------------------------------------------
  // Replies and the outcome of a request

  /** What one call of `ureq::get(url).call()` yields: an error, or a
      response with a status code and a body. */
  datatype Reply = CallFailed | Response(status: nat, body: seq<byte>)

  /** The file system as seen by the cache: file name to contents. */
  type Disk = map<string, seq<byte>>

  /** The result of `send_ofm_request`: the bytes returned, the disk after
      the call and the number of network calls made; or, when the script ran
      out while the loop was still retrying, the calls made so far. */
  datatype Outcome = Returned(bytes: seq<byte>, disk: Disk, calls: nat) | StillRetrying(calls: nat)

  /** A reply that ends the retry loop: a response whose status is not 429. */
  predicate Decisive(r: Reply): (b: bool)
  {
    r.Response? && r.status != 429
  }

  /** The index of the first reply that ends the retry loop, or |replies|
      when there is none. */
  function FirstDecisive(replies: seq<Reply>): (i: nat)
    ensures i <= |replies|
    ensures i < |replies| ==> Decisive(replies[i])
    ensures forall j :: 0 <= j < i ==> !Decisive(replies[j])
  {
    if replies == [] then 0
    else if Decisive(replies[0]) then 0
    else
      var i := FirstDecisive(replies[1..]);
      assert forall j :: 1 <= j < i + 1 ==> replies[j] == replies[1..][j - 1];
      1 + i
  }

  /** What `send_ofm_request(x, y, zoom)` does, stated on the whole script:
      a cached file is returned without any call; otherwise the first reply
      that is not a 429 or a failed call decides. A 200 is written to the
      cache file and returned; any other status returns no bytes and leaves
      the disk as it was. */
  function Fetch(disk: Disk, replies: seq<Reply>, zoom: nat, x: nat, y: nat): (r: Outcome)
  {
    var file := CacheFile(zoom, x, y);
    if file in disk then Returned(disk[file], disk, 0)
    else
      var i := FirstDecisive(replies);
      if i == |replies| then StillRetrying(|replies|)
      else if replies[i].status == 200 then Returned(replies[i].body, disk[file := replies[i].body], i + 1)
      else Returned([], disk, i + 1)
  }

  /** `send_ofm_request`: the cache lookup, then the `while status == 429`
      loop over the scripted replies. */
  method SendOfmRequest(disk: Disk, replies: seq<Reply>, x: nat, y: nat, zoom: nat) returns (outcome: Outcome)
    ensures outcome == Fetch(disk, replies, zoom, x, y)
  {
    var cacheFile := CacheFile(zoom, x, y);
    if cacheFile in disk {
      return Returned(disk[cacheFile], disk, 0);
    }
    var status := 429;
    var calls := 0;
    while status == 429
      invariant calls <= |replies|
      invariant status == 429 || status == 0
      invariant status == 429 ==> forall j :: 0 <= j < calls ==> !Decisive(replies[j])
      invariant status == 0 ==> 0 < calls && FirstDecisive(replies) == calls - 1
                                && replies[calls - 1].status != 200
      decreases |replies| - calls, status
    {
      if calls == |replies| {
        return StillRetrying(calls);
      }
      var reply := replies[calls];
      calls := calls + 1;
      if reply.Response? {
        if reply.status == 200 {
          status := 200;
          var bytes := reply.body;
          var written := disk[cacheFile := bytes];
          return Returned(bytes, written, calls);
        } else if reply.status == 429 {
          // the source sleeps for five seconds here
        } else {
          status := 0;
        }
      }
    }
    return Returned([], disk, calls);
  }

  // ---------------------------------------------------------------------
  // Properties of a request

  /** A cached tile is read from disk and the network is never called. */
  lemma CacheHitMakesNoCalls(disk: Disk, replies: seq<Reply>, zoom: nat, x: nat, y: nat)
    requires CacheFile(zoom, x, y) in disk
    ensures Fetch(disk, replies, zoom, x, y) == Returned(disk[CacheFile(zoom, x, y)], disk, 0)
  {
  }

  /** Whatever a request returns is what its cache file then holds, unless
      the request returned nothing because of an error status, in which case
      no cache file exists. */
  lemma FetchReturnsTheCachedBytes(disk: Disk, replies: seq<Reply>, zoom: nat, x: nat, y: nat)
    requires Fetch(disk, replies, zoom, x, y).Returned?
    ensures var o, file := Fetch(disk, replies, zoom, x, y), CacheFile(zoom, x, y);
      (file in o.disk && o.disk[file] == o.bytes)
      || (o.bytes == [] && o.disk == disk && file !in disk)
  {
  }

  /** A request writes at most its own cache file: every other file keeps
      its presence and its contents. */
  lemma FetchTouchesOnlyItsFile(disk: Disk, replies: seq<Reply>, zoom: nat, x: nat, y: nat, other: string)
    requires Fetch(disk, replies, zoom, x, y).Returned?
    requires other != CacheFile(zoom, x, y)
    ensures var d := Fetch(disk, replies, zoom, x, y).disk;
      (other in d <==> other in disk) && (other in disk ==> d[other] == disk[other])
  {
  }

  /** In particular a request leaves the cache entry of every other tile alone. */
  lemma FetchLeavesOtherTilesAlone(disk: Disk, replies: seq<Reply>, zoom: nat, x: nat, y: nat,
                                   zoom': nat, x': nat, y': nat)
    requires Fetch(disk, replies, zoom, x, y).Returned?
    requires zoom != zoom' || x != x' || y != y'
    ensures var d, other := Fetch(disk, replies, zoom, x, y).disk, CacheFile(zoom', x', y');
      (other in d <==> other in disk) && (other in disk ==> d[other] == disk[other])
  {
    if CacheFile(zoom', x', y') == CacheFile(zoom, x, y) {
      CacheFileInjective(zoom, x, y, zoom', x', y');
    }
    FetchTouchesOnlyItsFile(disk, replies, zoom, x, y, CacheFile(zoom', x', y'));
  }

  /** After a request that leaves a cache file behind, the same request is a
      cache hit, whatever the network would answer: it returns the same bytes
      with no call and no change to the disk. */
  lemma SecondRequestIsCacheHit(disk: Disk, replies: seq<Reply>, later: seq<Reply>, zoom: nat, x: nat, y: nat)
    requires Fetch(disk, replies, zoom, x, y).Returned?
    requires CacheFile(zoom, x, y) in Fetch(disk, replies, zoom, x, y).disk
    ensures var o := Fetch(disk, replies, zoom, x, y);
      Fetch(o.disk, later, zoom, x, y) == Returned(o.bytes, o.disk, 0)
  {
  }

  /** A cache file is left behind exactly when the tile was cached already or
      the deciding reply was a 200. */
  lemma CacheFileWrittenOn200(disk: Disk, replies: seq<Reply>, zoom: nat, x: nat, y: nat)
    requires CacheFile(zoom, x, y) !in disk
    requires FirstDecisive(replies) < |replies|
    ensures var o := Fetch(disk, replies, zoom, x, y);
      o.Returned? && o.calls == FirstDecisive(replies) + 1
      && (CacheFile(zoom, x, y) in o.disk <==> replies[FirstDecisive(replies)].status == 200)
  {
  }

  /** Any status other than 200 and 429 gives up: no bytes, disk unchanged. */
  lemma OtherStatusReturnsNothing(disk: Disk, replies: seq<Reply>, zoom: nat, x: nat, y: nat, k: nat)
    requires CacheFile(zoom, x, y) !in disk
    requires k < |replies| && replies[k].Response?
    requires replies[k].status != 200 && replies[k].status != 429
    requires forall j :: 0 <= j < k ==> !Decisive(replies[j])
    ensures Fetch(disk, replies, zoom, x, y) == Returned([], disk, k + 1)
  {
    assert FirstDecisive(replies) == k;
  }

  // ---------------------------------------------------------------------
  // Error statuses under ureq 2.x

  /** What `call()` of ureq 2.x (the version whose responses have
      `into_reader`) yields for an HTTP response: a status of 400 or more
      comes back as `Err`, which the `if let Ok(response)` treats like a
      failed call. The 429 and "other status" branches of the loop then
      only ever see statuses below 400. */
  function Ureq2Reply(status: nat, body: seq<byte>): (r: Reply)
    ensures r.Response? <==> status < 400
    ensures r.Response? ==> r.status == status && r.body == body
  {
    if status >= 400 then CallFailed else Response(status, body)
  }

  /** As written with ureq 2.x: a tile the server answers with 404 is
      requested again and again; after any number n of answers the loop is
      still retrying, with no bytes returned. */
  lemma NotFoundUnderUreq2RetriesForever(disk: Disk, zoom: nat, x: nat, y: nat, n: nat)
    requires CacheFile(zoom, x, y) !in disk
    ensures Fetch(disk, seq(n, _ => Ureq2Reply(404, [])), zoom, x, y) == StillRetrying(n)
  {
    var script := seq(n, _ => Ureq2Reply(404, []));
    assert forall j :: 0 <= j < |script| ==> script[j] == CallFailed;
  }

  /** As intended, with the status of the response visible to the loop: a
      404 ends the request after one call, with no bytes and no cache file. */
  lemma NotFoundReturnsNothing(disk: Disk, zoom: nat, x: nat, y: nat)
    requires CacheFile(zoom, x, y) !in disk
    ensures Fetch(disk, [Response(404, [])], zoom, x, y) == Returned([], disk, 1)
  {
    OtherStatusReturnsNothing(disk, [Response(404, [])], zoom, x, y, 0);
  }

  /** Rate-limited replies and failed calls are retried: putting any number
      of them in front of the script only adds that many calls. */
  lemma RetriesAddCalls(disk: Disk, retries: seq<Reply>, replies: seq<Reply>, zoom: nat, x: nat, y: nat)
    requires CacheFile(zoom, x, y) !in disk
    requires forall j :: 0 <= j < |retries| ==> !Decisive(retries[j])
    ensures var o, o' := Fetch(disk, replies, zoom, x, y), Fetch(disk, retries + replies, zoom, x, y);
      o'.calls == |retries| + o.calls
      && (o.Returned? <==> o'.Returned?)
      && (o.Returned? ==> o'.bytes == o.bytes && o'.disk == o.disk)
  {
    FirstDecisiveAfterRetries(retries, replies);
    var i := FirstDecisive(replies);
    if i < |replies| {
      assert (retries + replies)[|retries| + i] == replies[i];
    }
  }

  lemma FirstDecisiveAfterRetries(retries: seq<Reply>, replies: seq<Reply>)
    requires forall j :: 0 <= j < |retries| ==> !Decisive(retries[j])
    ensures FirstDecisive(retries + replies) == |retries| + FirstDecisive(replies)
  {
    var s, i := retries + replies, FirstDecisive(replies);
    forall j | 0 <= j < |retries| + i ensures !Decisive(s[j]) {
      if j < |retries| { assert s[j] == retries[j]; } else { assert s[j] == replies[j - |retries|]; }
    }
    if i < |replies| {
      assert s[|retries| + i] == replies[i];
    }
  }

  /** Three 429 replies, then a 200: four calls, and the body is stored and
      returned. */
  lemma RateLimitedThreeTimesThenOk(disk: Disk, body: seq<byte>, zoom: nat, x: nat, y: nat)
    requires CacheFile(zoom, x, y) !in disk
    ensures var busy := Response(429, []);
      Fetch(disk, [busy, busy, busy, Response(200, body)], zoom, x, y)
        == Returned(body, disk[CacheFile(zoom, x, y) := body], 4)
  {
    var busy := Response(429, []);
    var script := [busy, busy, busy, Response(200, body)];
    assert !Decisive(script[0]) && !Decisive(script[1]) && !Decisive(script[2]);
    assert Decisive(script[3]);
    assert FirstDecisive(script) == 3;
  }

  /** The request keeps retrying exactly when nothing is cached and no reply
      in the script ends the loop. */
  lemma StillRetryingWhenNothingDecides(disk: Disk, replies: seq<Reply>, zoom: nat, x: nat, y: nat)
    ensures Fetch(disk, replies, zoom, x, y).StillRetrying?
        <==> CacheFile(zoom, x, y) !in disk && forall j :: 0 <= j < |replies| ==> !Decisive(replies[j])
  {
  }
}
