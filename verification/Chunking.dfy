/** Evidence content is cut into chunk items of at most 64 KiB, each of them valid UTF-8. */
module Chunking {
  import opened Wrappers
  import opened PrefixCode
  import opened Utf8

  const MAX_EVIDENCE_BYTES: nat := 256 * 1024
  const MAX_CHUNK_BYTES: nat := 64 * 1024

  datatype ContentError = NotEncodable | TooLarge | NotUtf8

  /** Python's `str.encode("utf-8")`: a surrogate anywhere makes the text unencodable. */
  predicate Encodable(text: seq<CodePoint>) { forall i :: 0 <= i < |text| ==> !IsSurrogate(text[i]) }

  function Scalars(text: seq<CodePoint>): (s: seq<Scalar>)
    requires Encodable(text)
    ensures |s| == |text| && forall i :: 0 <= i < |s| ==> s[i] == text[i]
  {
    seq(|text|, i requires 0 <= i < |text| => text[i])
  }

  function Concat(chunks: seq<seq<Byte>>): seq<Byte> {
    if chunks == [] then [] else chunks[0] + Concat(chunks[1..])
  }

  /** The specification: take as many whole scalars as fit in one chunk, then go on. */
  function GreedyChunks(code: Code, s: seq<Scalar>): (chunks: seq<seq<Byte>>)
    requires code.Lawful()
    decreases |s|
  {
    if s == [] then [] else
      FitIsGreatest(code, s, MAX_CHUNK_BYTES);
      var k := Fit(code, s, MAX_CHUNK_BYTES);
      [Encode(code, s[..k])] + GreedyChunks(code, s[k..])
  }

  /** `reconstruct_content`: join and decode. */
  function Reconstruct(code: Code, chunks: seq<seq<Byte>>): Result<seq<Scalar>, ContentError> {
    match Decode(code, Concat(chunks))
    case Some(s) => Success(s)
    case None => Failure(NotUtf8)
  }

  lemma {:induction false} GreedyChunksJoin(code: Code, s: seq<Scalar>)
    requires code.Lawful()
    ensures Concat(GreedyChunks(code, s)) == Encode(code, s)
    decreases |s|
  {
    if s != [] {
      var k := Fit(code, s, MAX_CHUNK_BYTES);
      FitIsGreatest(code, s, MAX_CHUNK_BYTES);
      GreedyChunksJoin(code, s[k..]);
      EncodeConcat(code, s[..k], s[k..]);
      assert s == s[..k] + s[k..];
    }
  }

  /** Chunking and reconstruction are inverse on every encodable text. */
  lemma ReconstructInvertsChunking(code: Code, s: seq<Scalar>)
    requires code.Lawful()
    ensures Reconstruct(code, GreedyChunks(code, s)) == Success(s)
  {
    GreedyChunksJoin(code, s);
    DecodeEncode(code, s);
  }

  /** Whatever is stored: reading it gives a text exactly if the chunks together are that text's
      encoding, and fails exactly if they are the encoding of none. */
  lemma ReconstructIff(code: Code, chunks: seq<seq<Byte>>, s: seq<Scalar>)
    requires code.Lawful()
    ensures Reconstruct(code, chunks) == Success(s) <==> Concat(chunks) == Encode(code, s)
    ensures Reconstruct(code, chunks) == Failure(NotUtf8) <==> forall t :: Concat(chunks) != Encode(code, t)
  {
    DecodeEncode(code, s);
    if Reconstruct(code, chunks).Success? {
      EncodeDecode(code, Concat(chunks));
    } else {
      forall t ensures Concat(chunks) != Encode(code, t) { DecodeEncode(code, t); }
    }
  }

  /** A chunk that stands alone: non-empty, within the item limit, valid UTF-8. */
  predicate GoodChunk(code: Code, c: seq<Byte>) { 0 < |c| <= 65536 && Decode(code, c).Some? }

  lemma FirstChunk(code: Code, s: seq<Scalar>)
    requires code.Lawful()
    requires s != []
    ensures var k := Fit(code, s, MAX_CHUNK_BYTES);
      GoodChunk(code, Encode(code, s[..k])) && (k < |s| ==> MAX_CHUNK_BYTES - 3 <= |Encode(code, s[..k])|)
  {
    FitIsGreatest(code, s, MAX_CHUNK_BYTES);
    DecodeEncode(code, s[..Fit(code, s, MAX_CHUNK_BYTES)]);
  }

  /** Every chunk stands alone, and every chunk but the last gives up at most three bytes
      of its 64 KiB: the back-off stops after at most three steps. */
  lemma {:induction false} ChunksStandAlone(code: Code, s: seq<Scalar>, i: nat)
    requires code.Lawful()
    requires i < |GreedyChunks(code, s)|
    ensures var cs := GreedyChunks(code, s);
      GoodChunk(code, cs[i]) && (i + 1 < |cs| ==> 65533 <= |cs[i]|)
    decreases |s|
  {
    FirstChunk(code, s);
    FitIsGreatest(code, s, MAX_CHUNK_BYTES);
    if i > 0 {
      ChunksStandAlone(code, s[Fit(code, s, MAX_CHUNK_BYTES)..], i - 1);
    }
  }

  lemma {:induction false} ChunkCount(code: Code, s: seq<Scalar>)
    requires code.Lawful()
    ensures s != [] ==> |GreedyChunks(code, s)| > 0
    ensures (|GreedyChunks(code, s)| - 1) * 65533 <= |Encode(code, s)|
    decreases |s|
  {
    if s != [] {
      var k := Fit(code, s, MAX_CHUNK_BYTES);
      FirstChunk(code, s);
      FitIsGreatest(code, s, MAX_CHUNK_BYTES);
      EncodeConcat(code, s[..k], s[k..]);
      assert s == s[..k] + s[k..];
      ChunkCount(code, s[k..]);
      assert |GreedyChunks(code, s)| == 1 + |GreedyChunks(code, s[k..])|;
    }
  }

  /** Accepted content needs at most five chunk items. */
  lemma AtMostFiveChunks(code: Code, s: seq<Scalar>)
    requires code.Lawful()
    requires |Encode(code, s)| <= 262144
    ensures |GreedyChunks(code, s)| <= 5
  {
    ChunkCount(code, s);
  }

  /** Where the next chunk ends when `done` scalars have been cut off already. */
  ghost function NextEnd(code: Code, s: seq<Scalar>, done: nat): nat
    requires done <= |s|
  {
    |Encode(code, s[..done])| + |Encode(code, s[done..][..Fit(code, s[done..], MAX_CHUNK_BYTES)])|
  }

  ghost predicate AtOffset(code: Code, s: seq<Scalar>, raw: seq<Byte>, done: nat, offset: nat) {
    raw == Encode(code, s) && done <= |s| && offset == |Encode(code, s[..done])| <= |raw| && raw[offset..] == Encode(code, s[done..])
  }

  /** Of the windows tried, the only one that decodes holds exactly the scalars that fit. */
  lemma WindowDecodes(code: Code, s: seq<Scalar>, raw: seq<Byte>, done: nat, offset: nat, end: nat)
    requires code.Lawful()
    requires AtOffset(code, s, raw, done, offset)
    requires NextEnd(code, s, done) <= end <= |raw| && end <= offset + MAX_CHUNK_BYTES
    ensures Decode(code, raw[offset..end]).Some? <==> end == NextEnd(code, s, done)
  {
    PrefixDecodesAtBoundary(code, s[done..], end - offset);
    FitMonotone(code, s[done..], end - offset, MAX_CHUNK_BYTES);
    assert raw[offset..end] == Encode(code, s[done..])[..end - offset];
  }

  lemma NextEndInRange(code: Code, s: seq<Scalar>, raw: seq<Byte>, done: nat, offset: nat)
    requires code.Lawful()
    requires AtOffset(code, s, raw, done, offset) && offset < |raw|
    ensures offset < NextEnd(code, s, done) <= |raw| && NextEnd(code, s, done) <= offset + MAX_CHUNK_BYTES
    ensures offset + MAX_CHUNK_BYTES - 3 <= NextEnd(code, s, done) || NextEnd(code, s, done) == |raw|
  {
    var rest := s[done..];
    var k := Fit(code, rest, MAX_CHUNK_BYTES);
    FitIsGreatest(code, rest, MAX_CHUNK_BYTES);
    EncodeConcat(code, rest[..k], rest[k..]);
    assert rest == rest[..k] + rest[k..];
  }

  lemma AdvanceOffset(code: Code, s: seq<Scalar>, raw: seq<Byte>, done: nat, offset: nat, k: nat)
    requires AtOffset(code, s, raw, done, offset) && k <= |s| - done
    ensures var end := offset + |Encode(code, s[done..][..k])|;
      end <= |raw| && raw[offset..end] == Encode(code, s[done..][..k]) && AtOffset(code, s, raw, done + k, end)
  {
    var rest := s[done..];
    var end := offset + |Encode(code, rest[..k])|;
    EncodeSplit(code, rest, k);
    assert raw[offset..] == Encode(code, rest[..k]) + Encode(code, rest[k..]);
    assert raw[offset..end] == Encode(code, rest[..k]);
    assert raw[end..] == Encode(code, rest[k..]);
    assert rest[k..] == s[done + k..];
    EncodeSplit(code, s[..done + k], done);
    assert s[..done + k][..done] == s[..done] && s[..done + k][done..] == rest[..k];
  }

  lemma ChunkStep(code: Code, s: seq<Scalar>, raw: seq<Byte>, done: nat, offset: nat)
    requires code.Lawful()
    requires AtOffset(code, s, raw, done, offset) && offset < |raw|
    ensures var k := Fit(code, s[done..], MAX_CHUNK_BYTES);
      && offset < NextEnd(code, s, done) <= |raw|
      && done < done + k <= |s|
      && AtOffset(code, s, raw, done + k, NextEnd(code, s, done))
      && GreedyChunks(code, s[done..]) == [raw[offset..NextEnd(code, s, done)]] + GreedyChunks(code, s[done + k..])
  {
    var rest := s[done..];
    var k := Fit(code, rest, MAX_CHUNK_BYTES);
    FitIsGreatest(code, rest, MAX_CHUNK_BYTES);
    AdvanceOffset(code, s, raw, done, offset, k);
    assert rest[k..] == s[done + k..];
  }

  /** The inner loop of `chunk_content`: shrink the window one byte at a time until it
      decodes. It gives up at most three bytes and never reaches `offset`. */
  method BackOff(code: Code, raw: seq<Byte>, offset: nat, ghost s: seq<Scalar>, ghost done: nat) returns (end: nat)
    requires code.Lawful()
    requires AtOffset(code, s, raw, done, offset) && offset < |raw|
    ensures offset < end == NextEnd(code, s, done) <= |raw|
    ensures Decode(code, raw[offset..end]).Some?
    ensures end + 3 >= offset + MAX_CHUNK_BYTES || end == |raw|
  {
    end := if offset + MAX_CHUNK_BYTES < |raw| then offset + MAX_CHUNK_BYTES else |raw|;
    NextEndInRange(code, s, raw, done, offset);
    while end > offset
      invariant NextEnd(code, s, done) <= end <= |raw| && end <= offset + MAX_CHUNK_BYTES
    {
      WindowDecodes(code, s, raw, done, offset, end);
      if Decode(code, raw[offset..end]).Some? {
        break;
      }
      end := end - 1;
    }
  }

  ghost predicate Progress(code: Code, s: seq<Scalar>, raw: seq<Byte>, chunks: seq<seq<Byte>>, done: nat, offset: nat)
    requires code.Lawful()
  {
    AtOffset(code, s, raw, done, offset) && chunks + GreedyChunks(code, s[done..]) == GreedyChunks(code, s)
  }

  lemma ProgressStarts(code: Code, s: seq<Scalar>)
    requires code.Lawful()
    ensures Progress(code, s, Encode(code, s), [], 0, 0)
  {
    assert s[0..] == s && s[..0] == [] && Encode(code, s)[0..] == Encode(code, s);
    assert [] + GreedyChunks(code, s) == GreedyChunks(code, s);
  }

  lemma ProgressGoesOn(code: Code, s: seq<Scalar>, raw: seq<Byte>, chunks: seq<seq<Byte>>, done: nat, offset: nat)
    requires code.Lawful()
    requires Progress(code, s, raw, chunks, done, offset) && offset < |raw|
    ensures offset < NextEnd(code, s, done) <= |raw|
    ensures Progress(code, s, raw, chunks + [raw[offset..NextEnd(code, s, done)]],
                     done + Fit(code, s[done..], MAX_CHUNK_BYTES), NextEnd(code, s, done))
  {
    ChunkStep(code, s, raw, done, offset);
    var next := GreedyChunks(code, s[done + Fit(code, s[done..], MAX_CHUNK_BYTES)..]);
    var chunk := raw[offset..NextEnd(code, s, done)];
    assert chunks + [chunk] + next == chunks + ([chunk] + next);
  }

  lemma ProgressEnds(code: Code, s: seq<Scalar>, raw: seq<Byte>, chunks: seq<seq<Byte>>, done: nat, offset: nat)
    requires code.Lawful()
    requires Progress(code, s, raw, chunks, done, offset) && offset >= |raw|
    ensures chunks == GreedyChunks(code, s)
  {
    assert s[done..] == [];
    assert chunks + GreedyChunks(code, []) == chunks;
  }

  /** `chunk_content`: the loop over the raw bytes. `sha256` stands for the hash function. */
  method ChunkContent(code: Code, text: seq<CodePoint>, sha256: seq<Byte> -> string)
    returns (r: Result<(seq<seq<Byte>>, string), ContentError>)
    requires code.Lawful()
    ensures !Encodable(text) ==> r == Failure(NotEncodable)
    ensures Encodable(text) && |Encode(code, Scalars(text))| > 262144 ==> r == Failure(TooLarge)
    ensures Encodable(text) && |Encode(code, Scalars(text))| <= 262144 ==>
      r == Success((GreedyChunks(code, Scalars(text)), sha256(Encode(code, Scalars(text)))))
  {
    if !Encodable(text) {
      return Failure(NotEncodable);
    }
    ghost var s := Scalars(text);
    var raw := Encode(code, Scalars(text));
    if |raw| > MAX_EVIDENCE_BYTES {
      return Failure(TooLarge);
    }
    var chunks: seq<seq<Byte>> := [];
    var offset: nat := 0;
    ghost var done: nat := 0;
    ProgressStarts(code, s);
    while offset < |raw|
      invariant Progress(code, s, raw, chunks, done, offset)
      decreases |raw| - offset
    {
      var end := BackOff(code, raw, offset, s, done);
      ProgressGoesOn(code, s, raw, chunks, done, offset);
      chunks := chunks + [raw[offset..end]];
      done := done + Fit(code, s[done..], MAX_CHUNK_BYTES);
      offset := end;
    }
    ProgressEnds(code, s, raw, chunks, done, offset);
    r := Success((chunks, sha256(raw)));
  }

  /** All of it for UTF-8: any text of at most 256 KiB is cut into at most five non-empty
      chunks of valid UTF-8, none over 64 KiB, and joining them gives the text back. */
  lemma Utf8Chunks(s: seq<Scalar>)
    requires |Encode(UTF8, s)| <= 262144
    ensures UTF8.Lawful()
    ensures |GreedyChunks(UTF8, s)| <= 5
    ensures forall i :: 0 <= i < |GreedyChunks(UTF8, s)| ==> GoodChunk(UTF8, GreedyChunks(UTF8, s)[i])
    ensures Reconstruct(UTF8, GreedyChunks(UTF8, s)) == Success(s)
  {
    Utf8IsLawful();
    AtMostFiveChunks(UTF8, s);
    ReconstructInvertsChunking(UTF8, s);
    forall i | 0 <= i < |GreedyChunks(UTF8, s)| ensures GoodChunk(UTF8, GreedyChunks(UTF8, s)[i]) {
      ChunksStandAlone(UTF8, s, i);
    }
  }
}
