/**
 * The worker-to-leader push (internal/cluster/sender.go, receiver.go, crypto.go): encode,
 * encrypt, compress, deliver with retries; authenticate, decompress, decrypt, decode,
 * store. HKDF (section 2 of RFC 5869), AES-GCM (sections 7.1 and 7.2 of NIST SP 800-38D),
 * gzip and JSON are abstract functions with the inverse laws stated below.
 */
module PushPipeline {
  import opened Common
  import opened ShardHash
  import opened ClusterStore

  type Bytes = seq<bv8>

  const SALT_SIZE: nat := 16
  const NONCE_SIZE: nat := 12
  const BODY_LIMIT: nat := 5 * 1024 * 1024

  datatype Crypto = Crypto(
    deriveKey: (string, Bytes) -> Option<Bytes>,
    seal: (Bytes, Bytes, Bytes) -> Bytes,
    open: (Bytes, Bytes, Bytes) -> Option<Bytes>)

  /** Opening what was sealed under the same key and nonce gives the plaintext. */
  ghost predicate OpensSealed(c: Crypto) {
    forall k, n, p :: c.open(k, n, c.seal(k, n, p)) == Some(p)
  }

  // ---- Framing: salt, nonce, ciphertext ---------------------------------------------------

  function Encrypt(c: Crypto, payload: Bytes, secret: string, salt: Bytes, nonce: Bytes): Option<Bytes> {
    var key := c.deriveKey(secret, salt);
    if key.None? then None else Some(salt + nonce + c.seal(key.value, nonce, payload))
  }

  function Decrypt(c: Crypto, frame: Bytes, secret: string): Option<Bytes> {
    if |frame| < SALT_SIZE then None
    else
      var key := c.deriveKey(secret, frame[..SALT_SIZE]);
      var rest := frame[SALT_SIZE..];
      if key.None? || |rest| < NONCE_SIZE then None
      else c.open(key.value, rest[..NONCE_SIZE], rest[NONCE_SIZE..])
  }

  /** The frame is built by appending its three parts. */
  method EncryptFrame(c: Crypto, payload: Bytes, secret: string, salt: Bytes, nonce: Bytes)
    returns (frame: Option<Bytes>)
    ensures frame == Encrypt(c, payload, secret, salt, nonce)
  {
    var key := c.deriveKey(secret, salt);
    if key.None? {
      return None;
    }
    var ciphertext := c.seal(key.value, nonce, payload);
    var result: Bytes := [];
    result := result + salt;
    result := result + nonce;
    result := result + ciphertext;
    assert result == salt + nonce + ciphertext;
    return Some(result);
  }

  ghost predicate IsFrame(frame: Bytes, salt: Bytes, nonce: Bytes, sealed: Bytes) {
    |salt| == SALT_SIZE && |nonce| == NONCE_SIZE && frame == salt + nonce + sealed
  }

  /** A frame splits in one way only. */
  lemma FrameSplitsOnce(frame: Bytes, salt1: Bytes, nonce1: Bytes, sealed1: Bytes,
                        salt2: Bytes, nonce2: Bytes, sealed2: Bytes)
    requires IsFrame(frame, salt1, nonce1, sealed1) && IsFrame(frame, salt2, nonce2, sealed2)
    ensures salt1 == salt2 && nonce1 == nonce2 && sealed1 == sealed2
    ensures |salt1| == 16 && |nonce1| == 12 && frame == salt1 + nonce1 + sealed1
  {
    assert salt1 == frame[..SALT_SIZE] == salt2;
    assert nonce1 == frame[SALT_SIZE..][..NONCE_SIZE] == nonce2;
    assert sealed1 == frame[SALT_SIZE..][NONCE_SIZE..] == sealed2;
  }

  /** A frame is accepted exactly when it splits into a salt, a nonce and a ciphertext that
      opens under the key derived from that salt. */
  lemma DecryptsExactly(c: Crypto, frame: Bytes, secret: string, p: Bytes)
    ensures Decrypt(c, frame, secret) == Some(p) <==>
            exists salt, nonce, sealed ::
              && IsFrame(frame, salt, nonce, sealed)
              && c.deriveKey(secret, salt).Some?
              && c.open(c.deriveKey(secret, salt).value, nonce, sealed) == Some(p)
  {
    if Decrypt(c, frame, secret) == Some(p) {
      var salt, rest := frame[..SALT_SIZE], frame[SALT_SIZE..];
      assert IsFrame(frame, salt, rest[..NONCE_SIZE], rest[NONCE_SIZE..]);
    }
    forall salt, nonce, sealed | IsFrame(frame, salt, nonce, sealed)
      ensures frame[..SALT_SIZE] == salt && frame[SALT_SIZE..][..NONCE_SIZE] == nonce
      ensures frame[SALT_SIZE..][NONCE_SIZE..] == sealed && |frame| >= SALT_SIZE + NONCE_SIZE
    {
    }
  }

  lemma EncryptedDecrypts(c: Crypto, payload: Bytes, secret: string, salt: Bytes, nonce: Bytes)
    requires OpensSealed(c) && |salt| == SALT_SIZE && |nonce| == NONCE_SIZE
    requires Encrypt(c, payload, secret, salt, nonce).Some?
    ensures Decrypt(c, Encrypt(c, payload, secret, salt, nonce).value, secret) == Some(payload)
  {
    var sealed := c.seal(c.deriveKey(secret, salt).value, nonce, payload);
    assert IsFrame(salt + nonce + sealed, salt, nonce, sealed);
    DecryptsExactly(c, salt + nonce + sealed, secret, payload);
  }

  // ---- The two ends ------------------------------------------------------------------------

  datatype Codec<!M, !C> = Codec(
    marshal: Payload<M, C> -> Option<Bytes>, unmarshal: Bytes -> Option<Payload<M, C>>,
    gzip: Bytes -> Bytes, gunzip: Bytes -> Option<Bytes>)

  /** This payload survives JSON, and every byte string survives gzip. */
  ghost predicate Decodes<M, C>(d: Codec<M, C>, p: Payload<M, C>) {
    && (d.marshal(p).Some? ==> d.unmarshal(d.marshal(p).value) == Some(p))
    && forall b :: d.gunzip(d.gzip(b)) == Some(b)
  }

  /** An HTTP request; an absent header is the empty string. */
  datatype Request = Request(
    httpMethod: string, authorization: string, encoding: string, encrypted: string, body: Bytes)

  datatype Decision<M, C> = Reject(status: nat) | Accept(payload: Payload<M, C>)

  const BEARER: string := "Bearer "

  /** What `sendPushPayload` puts on the wire; `None` when it gives up before sending. */
  function BuildRequest<M, C>(c: Crypto, d: Codec<M, C>, secret: string, token: string,
                              p: Payload<M, C>, salt: Bytes, nonce: Bytes): Option<Request>
  {
    var json := d.marshal(p);
    if json.None? then None
    else
      var data := if secret != "" then Encrypt(c, json.value, secret, salt, nonce) else json;
      if data.None? then None
      else Some(Request("POST", if token != "" then BEARER + token else "", "gzip",
                        if secret != "" then "true" else "", d.gzip(data.value)))
  }

  /** The first half of `sendPushPayload`: encode, encrypt when there is a secret, compress. */
  method PrepareRequest<M, C>(c: Crypto, d: Codec<M, C>, secret: string, token: string,
                              p: Payload<M, C>, salt: Bytes, nonce: Bytes) returns (r: Option<Request>)
    ensures r == BuildRequest(c, d, secret, token, p, salt, nonce)
    ensures r.None? <==> d.marshal(p).None? || (secret != "" && c.deriveKey(secret, salt).None?)
    ensures r.Some? ==>
              && r.value.httpMethod == "POST" && r.value.encoding == "gzip"
              && r.value.authorization == (if token == "" then "" else "Bearer " + token)
              && r.value.encrypted == (if secret == "" then "" else "true")
              && r.value.body ==
                   d.gzip(if secret == "" then d.marshal(p).value
                          else salt + nonce + c.seal(c.deriveKey(secret, salt).value, nonce, d.marshal(p).value))
  {
    var data := d.marshal(p);
    if data.None? {
      return None;
    }
    var encrypted := false;
    if secret != "" {
      data := EncryptFrame(c, data.value, secret, salt, nonce);
      if data.None? {
        return None;
      }
      encrypted := true;
    }
    var compressedData := d.gzip(data.value);
    return Some(Request("POST", if token != "" then BEARER + token else "", "gzip",
                        if encrypted then "true" else "", compressedData));
  }

  predicate Authorized(token: string, header: string) {
    token == "" || (BEARER <= header && header[|BEARER|..] == token)
  }

  /** The checks of `ServeHTTP` in their order. */
  function Decide<M, C>(c: Crypto, d: Codec<M, C>, secret: string, token: string, r: Request): Decision<M, C> {
    if r.httpMethod != "POST" then Reject(405)
    else if !Authorized(token, r.authorization) then Reject(401)
    else if |r.body| > BODY_LIMIT then Reject(400)
    else
      var body := if r.encoding == "gzip" then d.gunzip(r.body) else Some(r.body);
      if body.None? then Reject(400)
      else if secret != "" && r.encrypted != "true" then Reject(403)
      else
        var plain := if secret != "" then Decrypt(c, body.value, secret) else body;
        if plain.None? then Reject(403)
        else
          var payload := d.unmarshal(plain.value);
          if payload.None? then Reject(400)
          else if payload.value.hostID == [] then Reject(400)
          else Accept(payload.value)
  }

  /** Any request, whoever built it: which of the five answers it gets. Other methods than POST
      are refused first, then wrong tokens; then come size and compression, then encryption,
      and last the payload itself. */
  lemma AnswersExactly<M, C>(c: Crypto, d: Codec<M, C>, secret: string, token: string, r: Request)
    ensures var decision := Decide(c, d, secret, token, r);
            var admitted := r.httpMethod == "POST" && (token == "" || r.authorization == "Bearer " + token);
            var body := if r.encoding == "gzip" then d.gunzip(r.body) else Some(r.body);
            var readable := |r.body| <= 5_242_880 && body.Some?;
            var plain := if secret == "" then body
                         else if body.Some? && r.encrypted == "true" then Decrypt(c, body.value, secret) else None;
            && (decision == Reject(405) <==> r.httpMethod != "POST")
            && (decision == Reject(401) <==>
                  r.httpMethod == "POST" && token != "" && r.authorization != "Bearer " + token)
            && (decision == Reject(403) <==> admitted && readable && plain.None?)
            && (forall p :: decision == Accept(p) <==>
                  admitted && readable && plain.Some? && d.unmarshal(plain.value) == Some(p) && p.hostID != [])
            && (decision.Reject? ==> decision.status in {400, 401, 403, 405})
  {
    assert token != "" ==> (Authorized(token, r.authorization) <==> r.authorization == "Bearer " + token);
  }

  /** With equal secrets (or none on both ends) the leader recovers exactly the pushed
      payload if and only if its token is empty or the worker's, the compressed body is
      within the limit and the host is named; otherwise it rejects the request. */
  lemma DeliversExactly<M, C>(c: Crypto, d: Codec<M, C>, secret: string, workerToken: string, leaderToken: string,
                              p: Payload<M, C>, salt: Bytes, nonce: Bytes)
    requires OpensSealed(c) && Decodes(d, p) && |salt| == SALT_SIZE && |nonce| == NONCE_SIZE
    requires BuildRequest(c, d, secret, workerToken, p, salt, nonce).Some?
    ensures var r := BuildRequest(c, d, secret, workerToken, p, salt, nonce).value;
            Decide(c, d, secret, leaderToken, r) == Accept(p) <==>
              && (leaderToken == "" || leaderToken == workerToken)
              && |r.body| <= BODY_LIMIT
              && p.hostID != []
    ensures var r := BuildRequest(c, d, secret, workerToken, p, salt, nonce).value;
            Decide(c, d, secret, leaderToken, r) == Accept(p) || Decide(c, d, secret, leaderToken, r).Reject?
  {
    var json := d.marshal(p).value;
    if secret != "" {
      EncryptedDecrypts(c, json, secret, salt, nonce);
    }
    assert (BEARER + workerToken)[|BEARER|..] == workerToken;
  }

  /** A leader with a secret rejects every push of a worker without one. A leader without a
      secret takes the frame of a worker with one for JSON, and accepts it exactly when it
      happens to decode to a payload that names its host. */
  lemma UnequalSecrets<M, C>(c: Crypto, d: Codec<M, C>, secret: string, workerToken: string, leaderToken: string,
                             p: Payload<M, C>, q: Payload<M, C>, salt: Bytes, nonce: Bytes)
    requires Decodes(d, p) && secret != ""
    ensures var r := BuildRequest(c, d, "", workerToken, p, salt, nonce);
            r.Some? ==> Decide(c, d, secret, leaderToken, r.value).Reject?
    ensures var r := BuildRequest(c, d, secret, workerToken, p, salt, nonce);
            r.Some? ==>
              (Decide(c, d, "", leaderToken, r.value) == Accept(q) <==>
                && (leaderToken == "" || leaderToken == workerToken)
                && |r.value.body| <= BODY_LIMIT
                && d.unmarshal(Encrypt(c, d.marshal(p).value, secret, salt, nonce).value) == Some(q)
                && q.hostID != [])
  {
    assert (BEARER + workerToken)[|BEARER|..] == workerToken;
  }

  // ---- Delivery with retries ---------------------------------------------------------------

  /** What the network does to one attempt. */
  datatype Link = Lost | ReplyLost | Through

  const MAX_RETRIES: nat := 3
  const SECOND: int := 1_000_000_000

  function Pow2(n: nat): nat {
    if n == 0 then 1 else 2 * Pow2(n - 1)
  }

  /** The last of the first `n` attempts to reach the leader. */
  function LastArrival(link: nat -> Link, n: nat): Option<nat> {
    if n == 0 then None
    else if link(n - 1) != Lost then Some(n - 1)
    else LastArrival(link, n - 1)
  }

  lemma {:induction false} LastArrivalIsLast(link: nat -> Link, n: nat)
    ensures LastArrival(link, n).None? <==> forall i: nat :: i < n ==> link(i) == Lost
    ensures var a := LastArrival(link, n);
            a.Some? ==> a.value < n && link(a.value) != Lost && forall i: nat :: a.value < i < n ==> link(i) == Lost
  {
    if n > 0 {
      LastArrivalIsLast(link, n - 1);
    }
  }

  class Receiver<M, C> {
    const store: MemoryStore<M, C>
    const crypto: Crypto
    const codec: Codec<M, C>
    const secret: string
    const token: string

    constructor (store: MemoryStore<M, C>, crypto: Crypto, codec: Codec<M, C>, secret: string, token: string)
      ensures this.store == store && this.crypto == crypto && this.codec == codec
      ensures this.secret == secret && this.token == token
    {
      this.store, this.crypto, this.codec, this.secret, this.token := store, crypto, codec, secret, token;
    }

    method ServeHTTP(r: Request, now: int) returns (status: nat)
      requires store.Valid()
      modifies store.shards
      ensures store.Valid()
      ensures var d := Decide(crypto, codec, secret, token, r);
              && status == (if d.Accept? then 202 else d.status)
              && store.Flat() == (if d.Accept? then old(store.Flat())[d.payload.hostID := HostData(now, d.payload)]
                                  else old(store.Flat()))
    {
      if r.httpMethod != "POST" {
        return 405;
      }
      if token != "" {
        if !(BEARER <= r.authorization) || r.authorization[|BEARER|..] != token {
          return 401;
        }
      }
      if |r.body| > BODY_LIMIT {
        return 400;
      }
      var body := Some(r.body);
      if r.encoding == "gzip" {
        body := codec.gunzip(r.body);
      }
      if body.None? {
        return 400;
      }
      if secret != "" {
        if r.encrypted != "true" {
          return 403;
        }
        body := Decrypt(crypto, body.value, secret);
        if body.None? {
          return 403;
        }
      }
      var payload := codec.unmarshal(body.value);
      if payload.None? || payload.value.hostID == [] {
        return 400;
      }
      store.UpdateHost(payload.value, now);
      return 202;
    }
  }

  lemma RejectionIsAnError<M, C>(c: Crypto, d: Codec<M, C>, secret: string, token: string, r: Request)
    ensures Decide(c, d, secret, token, r).Reject? ==> Decide(c, d, secret, token, r).status >= 400
  {
  }

  /** The leader's map after its `n`-th request: only the last arrival's time remains. */
  ghost function Delivered<M, C>(before: Hosts<M, C>, d: Decision<M, C>,
                                 arrival: Option<nat>, clock: nat -> int): Hosts<M, C>
  {
    if d.Accept? && arrival.Some?
    then before[d.payload.hostID := HostData(clock(arrival.value), d.payload)]
    else before
  }

  lemma DeliveredOnceMore<M, C>(before: Hosts<M, C>, d: Decision<M, C>, link: nat -> Link, n: nat, clock: nat -> int)
    ensures Delivered(before, d, LastArrival(link, n + 1), clock) ==
              var sofar := Delivered(before, d, LastArrival(link, n), clock);
              if d.Accept? && link(n) != Lost then sofar[d.payload.hostID := HostData(clock(n), d.payload)] else sofar
  {
  }

  /** Waits of one, two and four seconds. */
  ghost predicate Doubling(waits: seq<int>) {
    forall i :: 0 <= i < |waits| ==> waits[i] == Pow2(i) * SECOND
  }

  /** One attempt succeeds when the request arrives, is accepted and is answered. */
  ghost predicate Succeeds<M, C>(d: Decision<M, C>, l: Link) {
    l == Through && d.Accept?
  }

  ghost function Verdict<M, C>(leader: Receiver<M, C>, r: Request): Decision<M, C> {
    Decide(leader.crypto, leader.codec, leader.secret, leader.token, r)
  }

  method Attempt<M, C>(leader: Receiver<M, C>, r: Request, l: Link, now: int) returns (success: bool)
    requires leader.store.Valid()
    modifies leader.store.shards
    ensures leader.store.Valid()
    ensures success == Succeeds(Verdict(leader, r), l)
    ensures var d := Verdict(leader, r);
            leader.store.Flat() ==
              if d.Accept? && l != Lost
              then old(leader.store.Flat())[d.payload.hostID := HostData(now, d.payload)]
              else old(leader.store.Flat())
  {
    RejectionIsAnError(leader.crypto, leader.codec, leader.secret, leader.token, r);
    if l == Lost {
      return false;
    }
    var status := leader.ServeHTTP(r, now);
    success := l == Through && (status == 200 || status == 202);
  }

  /**
   * The retry loop of `sendPushPayload` against a leader, over a network that may lose
   * requests or replies; `clock` is the leader's clock at each attempt and `cancelled(i)`
   * says that the context ended during the i-th wait. No attempt follows a success or a
   * cancellation, only those or the limit end the loop, and the leader's map changes
   * only for the host, to the payload at the time of its last arrival.
   */
  method SendPushPayload<M, C>(leader: Receiver<M, C>, r: Request, link: nat -> Link,
                               clock: nat -> int, cancelled: nat -> bool)
    returns (attempts: nat, success: bool, waits: seq<int>, failures: nat)
    requires leader.store.Valid()
    modifies leader.store.shards
    ensures leader.store.Valid()
    ensures 1 <= attempts <= MAX_RETRIES + 1
    ensures forall i: nat :: i < attempts - 1 ==> !Succeeds(Verdict(leader, r), link(i)) && !cancelled(i)
    ensures success == Succeeds(Verdict(leader, r), link(attempts - 1))
    ensures success || attempts == 4 || cancelled(attempts - 1)
    ensures failures == (if !success && attempts == MAX_RETRIES + 1 then 1 else 0)
    ensures |waits| == attempts - 1 && Doubling(waits)
    ensures attempts <= 4 && waits <= [1_000_000_000, 2_000_000_000, 4_000_000_000]
    ensures leader.store.Flat() ==
              Delivered(old(leader.store.Flat()), Verdict(leader, r), LastArrival(link, attempts), clock)
  {
    ghost var before := leader.store.Flat();
    var backoff := SECOND;
    attempts, waits, failures := 0, [], 0;
    while true
      invariant leader.store.Valid()
      invariant attempts <= MAX_RETRIES && |waits| == attempts && Doubling(waits)
      invariant failures == 0 && backoff == Pow2(attempts) * SECOND
      invariant forall i: nat :: i < attempts ==> !Succeeds(Verdict(leader, r), link(i)) && !cancelled(i)
      invariant leader.store.Flat() == Delivered(before, Verdict(leader, r), LastArrival(link, attempts), clock)
      decreases MAX_RETRIES + 1 - attempts
    {
      success := Attempt(leader, r, link(attempts), clock(attempts));
      DeliveredOnceMore(before, Verdict(leader, r), link, attempts, clock);
      attempts := attempts + 1;
      if success {
        return;
      }
      if attempts == MAX_RETRIES + 1 {
        failures := 1;
        return;
      }
      if cancelled(attempts - 1) {
        return;
      }
      waits := waits + [backoff];
      backoff := backoff * 2;
    }
  }

  /**
   * The whole pipeline between a worker and a leader that share a secret (or have none).
   * A push succeeds exactly when it is deliverable and one of its attempts gets through
   * before a cancellation. It has then stored exactly `p`, at the time of its last attempt.
   * In every case nothing but that host's entry changes: to `p`, at the time of the last
   * attempt that arrived, and not at all when the leader must refuse.
   */
  method Push<M, C>(leader: Receiver<M, C>, workerToken: string, p: Payload<M, C>, salt: Bytes, nonce: Bytes,
                    link: nat -> Link, clock: nat -> int, cancelled: nat -> bool)
    returns (attempts: nat, success: bool)
    requires leader.store.Valid()
    requires OpensSealed(leader.crypto) && Decodes(leader.codec, p) && |salt| == SALT_SIZE && |nonce| == NONCE_SIZE
    modifies leader.store.shards
    ensures leader.store.Valid()
    ensures success <==> Deliverable(leader, workerToken, p, salt, nonce) && Reaches(link, cancelled)
    ensures success ==> attempts > 0
    ensures success ==>
              leader.store.Flat() == old(leader.store.Flat())[p.hostID := HostData(clock(attempts - 1), p)]
    ensures attempts > 0 && Deliverable(leader, workerToken, p, salt, nonce) && link(attempts - 1) == Through ==>
              success
    ensures leader.store.Flat() ==
              if Deliverable(leader, workerToken, p, salt, nonce) && LastArrival(link, attempts).Some?
              then old(leader.store.Flat())[p.hostID := HostData(clock(LastArrival(link, attempts).value), p)]
              else old(leader.store.Flat())
    ensures attempts == 0 <==>
              BuildRequest(leader.crypto, leader.codec, leader.secret, workerToken, p, salt, nonce).None?
  {
    var r := PrepareRequest(leader.crypto, leader.codec, leader.secret, workerToken, p, salt, nonce);
    if r.None? {
      return 0, false;
    }
    DeliversExactly(leader.crypto, leader.codec, leader.secret, workerToken, leader.token, p, salt, nonce);
    var waits, failures;
    attempts, success, waits, failures := SendPushPayload(leader, r.value, link, clock, cancelled);
    LastArrivalIsLast(link, attempts);
  }

  /** One of the four attempts gets through, and no wait before it is cancelled. */
  ghost predicate Reaches(link: nat -> Link, cancelled: nat -> bool) {
    exists i: nat :: i < 4 && link(i) == Through && forall j: nat :: j < i ==> !cancelled(j)
  }

  /** The request can be built, the leader's token is empty or the worker's, the compressed
      body is within the limit, and the host is named. */
  ghost predicate Deliverable<M, C>(leader: Receiver<M, C>, workerToken: string, p: Payload<M, C>,
                                    salt: Bytes, nonce: Bytes)
  {
    var r := BuildRequest(leader.crypto, leader.codec, leader.secret, workerToken, p, salt, nonce);
    && r.Some?
    && (leader.token == "" || leader.token == workerToken)
    && |r.value.body| <= BODY_LIMIT
    && p.hostID != []
  }
}
