/** One advisory download: the size-capped, teed body read and the integrity checks over it. */
module Download {
  import opened Text
  import opened Csaf

  type Bytes = seq<bv8>

  const MAX_ADVISORY_BYTES: nat := 32 * 1024 * 1024

  // The answer to a GET. `chunks` is the body as the successive reads deliver it; a broken transfer
  // ends in a read error after them instead of end of file.
  datatype Response = Response(reachable: bool, statusOk: bool, chunks: seq<Bytes>, broken: bool)

  // What json.Decoder makes of the body: it stops after `steps` reads, with a document or an error.
  datatype Decoding = Decoding(steps: nat, doc: Option<Document>)

  datatype Fetch = Fetched(doc: Document) | TooLarge | Rejected

  datatype ReadStatus = More | Eof | ReadError

  function Concat(chunks: seq<Bytes>): Bytes {
    if chunks == [] then [] else Concat(chunks[..|chunks| - 1]) + chunks[|chunks| - 1]
  }

  function Cut(body: Bytes, limit: nat): Bytes {
    if |body| <= limit then body else body[..limit]
  }

  lemma {:induction false} ConcatSplit(chunks: seq<Bytes>, i: nat)
    requires i <= |chunks|
    ensures Concat(chunks[..i]) <= Concat(chunks)
  {
    if i < |chunks| {
      ConcatSplit(chunks[..|chunks| - 1], i);
      assert chunks[..|chunks| - 1][..i] == chunks[..i];
    } else {
      assert chunks[..i] == chunks;
    }
  }

  // Concat puts the chunks one after the other.
  lemma ConcatOne(chunk: Bytes)
    ensures Concat([chunk]) == chunk
  {
    assert [chunk][..0] == [];
  }

  lemma {:induction false} ConcatJoins(a: seq<Bytes>, b: seq<Bytes>)
    ensures Concat(a + b) == Concat(a) + Concat(b)
  {
    if b == [] {
      assert a + b == a;
    } else {
      var n := |b| - 1;
      ConcatJoins(a, b[..n]);
      assert (a + b)[..|a| + n] == a + b[..n] && (a + b)[|a| + n] == b[n];
    }
  }

  // io.TeeReader over countingReader over io.LimitReader over the response body.
  class TeeReader {
    const chunks: seq<Bytes>
    const broken: bool
    const limit: nat
    var next: nat
    var n: nat
    var extra: Bytes

    ghost predicate Valid()
      reads this
    {
      next <= |chunks| && n == |extra| && extra == Cut(Concat(chunks[..next]), limit)
    }

    constructor (chunks: seq<Bytes>, broken: bool, limit: nat)
      ensures Valid() && next == 0
      ensures this.chunks == chunks && this.broken == broken && this.limit == limit
    {
      this.chunks, this.broken, this.limit := chunks, broken, limit;
      next, n, extra := 0, 0, [];
    }

    method Read() returns (status: ReadStatus)
      requires Valid()
      modifies this
      ensures Valid()
      ensures status == if old(n) >= limit then Eof
                        else if old(next) < |chunks| then More
                        else if broken then ReadError else Eof
      ensures next == if status == More then old(next) + 1 else old(next)
      ensures status != More ==> n == old(n)
    {
      if n >= limit {
        return Eof;
      }
      if next == |chunks| {
        return if broken then ReadError else Eof;
      }
      var got := Cut(chunks[next], limit - n);
      assert chunks[..next + 1][..next] == chunks[..next];
      assert Concat(chunks[..next + 1]) == Concat(chunks[..next]) + chunks[next];
      next := next + 1;
      n := n + |got|;
      extra := extra + got;
      return More;
    }

    // At the end of the stream the teed copy is the whole body, unless the limit cut it.
    lemma AtEof()
      requires Valid() && (n >= limit || next == |chunks|)
      ensures extra == Cut(Concat(chunks), limit)
    {
      ConcatSplit(chunks, next);
      assert chunks[..|chunks|] == chunks;
    }
  }

  // Whatever the split of the body and however much of it the decoder consumed: the download succeeds
  // exactly for a complete body of at most maxBytes that decodes, and then the copy is that body.
  method FetchDocument(response: Response, decoding: Decoding, maxBytes: nat) returns (r: Fetch, extra: Bytes)
    ensures r.Fetched? <==>
      && response.reachable && response.statusOk && !response.broken
      && |Concat(response.chunks)| <= maxBytes
      && decoding.doc.Some?
    ensures r.Fetched? ==> decoding.doc == Some(r.doc) && extra == Concat(response.chunks)
    ensures r.TooLarge? ==> |Concat(response.chunks)| > maxBytes
    ensures response.reachable && response.statusOk && |Concat(response.chunks)| > maxBytes && decoding.doc.Some? ==> r.TooLarge?
    ensures |extra| <= maxBytes + 1
  {
    if !response.reachable || !response.statusOk {
      return Rejected, [];
    }
    var body := Concat(response.chunks);
    var tee := new TeeReader(response.chunks, response.broken, maxBytes + 1);
    var status := More;
    var done := 0;
    while done < decoding.steps && status == More
      invariant tee.Valid() && tee.chunks == response.chunks && tee.broken == response.broken && tee.limit == maxBytes + 1
      invariant status == ReadError ==> tee.broken && tee.n < tee.limit && tee.next == |tee.chunks|
      invariant status == Eof ==> tee.n >= tee.limit || (!tee.broken && tee.next == |tee.chunks|)
    {
      status := tee.Read();
      done := done + 1;
    }
    ConcatSplit(tee.chunks, tee.next);
    if status == ReadError || decoding.doc.None? {
      if status == ReadError {
        tee.AtEof();
      }
      return if tee.n > maxBytes then TooLarge else Rejected, tee.extra;
    }
    // io.Copy(io.Discard, tee)
    while status == More
      invariant tee.Valid() && tee.chunks == response.chunks && tee.broken == response.broken && tee.limit == maxBytes + 1
      invariant status == ReadError ==> tee.broken && tee.n < tee.limit && tee.next == |tee.chunks|
      invariant status == Eof ==> tee.n >= tee.limit || (!tee.broken && tee.next == |tee.chunks|)
      decreases |tee.chunks| - tee.next, if status == More then 1 else 0
    {
      status := tee.Read();
    }
    tee.AtEof();
    extra := tee.extra;
    if status == ReadError {
      r := Rejected;
    } else if tee.n > maxBytes {
      r := TooLarge;
    } else {
      r := Fetched(decoding.doc.value);
    }
  }

  // ---------- Integrity ----------

  // The hash and OpenPGP functions, which are foreign to the repository.
  datatype Crypto = Crypto(sha512: Bytes -> Bytes, sha256: Bytes -> Bytes, verify: (Bytes, Bytes) -> bool)

  // A side file: not offered, offered but not loadable, or loaded.
  datatype SideFile = Absent | Unloadable | Loaded(content: Bytes)

  datatype File = File(sha512: SideFile, sha256: SideFile, signature: SideFile, response: Response, decoding: Decoding)

  datatype Advisory = Advisory(raw: Bytes, doc: Document)

  // The digest of the strongest hash offered matches; a weaker one is never consulted.
  predicate DigestMatches(crypto: Crypto, file: File, body: Bytes) {
    if !file.sha512.Absent? then file.sha512 == Loaded(crypto.sha512(body))
    else if !file.sha256.Absent? then file.sha256 == Loaded(crypto.sha256(body))
    else false
  }

  predicate SignatureHolds(crypto: Crypto, file: File, body: Bytes) {
    file.signature.Loaded? && crypto.verify(file.signature.content, body)
  }

  // The whole body arrived within the cap, decodes, and passes both checks.
  predicate Accepts(crypto: Crypto, file: File) {
    var body := Concat(file.response.chunks);
    && file.response.reachable && file.response.statusOk && !file.response.broken
    && |body| <= MAX_ADVISORY_BYTES
    && file.decoding.doc.Some?
    && DigestMatches(crypto, file, body)
    && SignatureHolds(crypto, file, body)
  }

  function Verified(crypto: Crypto, file: File): Option<Advisory> {
    if Accepts(crypto, file) then Some(Advisory(Concat(file.response.chunks), file.decoding.doc.value)) else None
  }

  // processFile up to the call of the handler: it hands on exactly the whole body of an accepted file.
  method VerifyFile(crypto: Crypto, file: File) returns (r: Option<Advisory>)
    ensures r == Verified(crypto, file)
    ensures var body := Concat(file.response.chunks);
      r.Some? <==>
        && file.response.reachable && file.response.statusOk && !file.response.broken
        && |body| <= 32 * 1024 * 1024 && file.decoding.doc.Some?
        && (if file.sha512.Absent? then file.sha256 == Loaded(crypto.sha256(body)) else file.sha512 == Loaded(crypto.sha512(body)))
        && file.signature.Loaded? && crypto.verify(file.signature.content, body)
    ensures r.Some? ==> r.value.raw == Concat(file.response.chunks) && Some(r.value.doc) == file.decoding.doc
  {
    hide Concat;
    if file.sha512.Absent? && file.sha256.Absent? {
      return None;
    }
    var fetched, data := FetchDocument(file.response, file.decoding, MAX_ADVISORY_BYTES);
    if !fetched.Fetched? {
      return None;
    }
    var checksum := if !file.sha512.Absent? then crypto.sha512(data) else crypto.sha256(data);
    var remote := if !file.sha512.Absent? then file.sha512 else file.sha256;
    if remote.Unloadable? || checksum != remote.content {
      return None;
    }
    if file.signature.Absent? {
      return None;
    }
    if file.signature.Unloadable? || !crypto.verify(file.signature.content, data) {
      return None;
    }
    return Some(Advisory(data, fetched.doc));
  }
}
