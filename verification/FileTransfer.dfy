/** Sending and receiving a file over a byte stream (src/aux/file): a header, the content through a buffer at each
    end, and a footer with a hash of the content. */
module FileTransfer {
  import opened Words
  import opened Wrappers
  import opened LittleEndian
  import opened Sequences
  import opened Streams

  const U64_LIMIT := 0x1_0000_0000_0000_0000
  const FOOTER_SIZE := 16

  type Hash = h: nat | h < Pow256(16)

  const NO_HASH: Hash := 0

  datatype Header = Header(fileName: seq<U8>, mode: nat, fileLength: nat) {
    ghost predicate Valid() {
      |fileName| < U64_LIMIT && mode < U32_LIMIT && fileLength < U64_LIMIT
    }
  }

  datatype Error =
    | Io
    | StringFormat
    | InvalidFileSize(expected: nat, received: nat)
    | InvalidHash(computed: Hash, announced: Hash)

  /** One call on the hasher: a whole buffer, which hashes its length too, or bare bytes. */
  datatype HashWrite = Whole(bytes: seq<U8>) | Raw(bytes: seq<U8>)

  /** The hash function as a whole: what the hasher answers after a sequence of calls; and the UTF-8 check. */
  datatype Outside = Outside(finish: seq<HashWrite> -> Hash, isUtf8: seq<U8> -> bool)

  function HeaderBytes(h: Header): seq<U8> {
    ToBytes(|h.fileName|, 8) + h.fileName + ToBytes(h.mode, 4) + ToBytes(h.fileLength, 8)
  }

  function FooterBytes(hash: Hash): seq<U8> {
    ToBytes(hash, FOOTER_SIZE)
  }

  /** The calls made on the hasher for some content with a buffer of `size` bytes: a whole buffer each time it is
      full, then the rest, if any. */
  function Chunks(content: seq<U8>, size: nat): seq<HashWrite> {
    if 0 < size <= |content| then [Whole(content[..size])] + Chunks(content[size..], size)
    else if content == [] then []
    else [Raw(content)]
  }

  /** Two buffer sizes make the same calls on the hasher exactly when they are equal or neither buffer is ever
      filled. */
  lemma ChunksAgreeIff(content: seq<U8>, a: nat, b: nat)
    requires 0 < a && 0 < b
    ensures Chunks(content, a) == Chunks(content, b) <==> a == b || (|content| < a && |content| < b)
  {
    var x, y := Chunks(content, a), Chunks(content, b);
    assert a <= |content| ==> x[0] == Whole(content[..a]) && |x[0].bytes| == a;
    assert b <= |content| ==> y[0] == Whole(content[..b]) && |y[0].bytes| == b;
    assert |content| < a && content != [] ==> x == [Raw(content)];
    assert |content| < b && content != [] ==> y == [Raw(content)];
  }

  /** A header field by field: eight bytes of the length of the name, the name, four of the mode, eight of the length of
      the file. */
  ghost predicate LaidOut(bytes: seq<U8>, h: Header) {
    var n := |h.fileName|;
    && |bytes| == 20 + n
    && FromBytes(bytes[0..8]) == n
    && bytes[8..8 + n] == h.fileName
    && FromBytes(bytes[8 + n..12 + n]) == h.mode
    && FromBytes(bytes[12 + n..20 + n]) == h.fileLength
  }

  lemma HeaderLaidOut(h: Header)
    ensures h.Valid() ==> LaidOut(HeaderBytes(h), h)
  {
    if h.Valid() {
      var bytes, n := HeaderBytes(h), |h.fileName|;
      Widths();
      NumberRoundTrip(n, 8);
      NumberRoundTrip(h.mode, 4);
      NumberRoundTrip(h.fileLength, 8);
      FourParts(ToBytes(n, 8), h.fileName, ToBytes(h.mode, 4), ToBytes(h.fileLength, 8));
    }
  }

  method WriteHeader(h: Header, w: Sink) returns (ok: bool)
    modifies w`written
    ensures ok ==> w.written == old(w.written) + HeaderBytes(h)
    ensures ok && h.Valid() ==> LaidOut(w.written[|old(w.written)|..], h)
    ensures w.reliable ==> ok
  {
    HeaderLaidOut(h);
    ghost var before := w.written;
    ok := w.WriteAll(ToBytes(|h.fileName|, 8));
    if ok {
      ok := w.WriteAll(h.fileName);
      if ok {
        ok := w.WriteAll(ToBytes(h.mode, 4));
        if ok {
          ok := w.WriteAll(ToBytes(h.fileLength, 8));
          assert ok ==> w.written == before + HeaderBytes(h) && w.written[|before|..] == HeaderBytes(h);
        }
      }
    }
  }

  /** The bytes at `position` are a header with an acceptable name. */
  ghost predicate HeaderAt(o: Outside, input: seq<U8>, position: nat, h: Header) {
    && h.Valid() && o.isUtf8(h.fileName)
    && position <= |input| && HeaderBytes(h) <= input[position..]
  }

  /** The four fields cut out of the bytes at `position`, with a name of `count` bytes. */
  function FieldsAt(input: seq<U8>, position: nat, count: nat): Header
    requires position + 20 + count <= |input|
  {
    var name := position + 8;
    Header(input[name..name + count],
           FromBytes(input[name + count..name + count + 4]),
           FromBytes(input[name + count + 4..name + count + 12]))
  }

  lemma HeaderFields(o: Outside, input: seq<U8>, position: nat, h: Header)
    requires HeaderAt(o, input, position, h)
    ensures position + 20 + |h.fileName| <= |input|
    ensures FromBytes(input[position..position + 8]) == |h.fileName|
    ensures FieldsAt(input, position, |h.fileName|) == h
  {
    var bytes := HeaderBytes(h);
    var count := |h.fileName|;
    HeaderLaidOut(h);
    assert bytes == input[position..position + |bytes|];
    var end := position + |bytes|;
    PartOfPart(input, position, end, 0, 8);
    PartOfPart(input, position, end, 8, 8 + count);
    PartOfPart(input, position, end, 8 + count, 12 + count);
    PartOfPart(input, position, end, 12 + count, 20 + count);
  }

  lemma FieldsHeader(o: Outside, input: seq<U8>, position: nat, count: nat)
    requires position + 20 + count <= |input| && FromBytes(input[position..position + 8]) == count
    requires o.isUtf8(input[position + 8..position + 8 + count])
    ensures HeaderAt(o, input, position, FieldsAt(input, position, count))
    ensures |HeaderBytes(FieldsAt(input, position, count))| == 20 + count
  {
    var name := position + 8;
    Widths();
    BytesRoundTrip(input[position..name]);
    BytesRoundTrip(input[name + count..name + count + 4]);
    BytesRoundTrip(input[name + count + 4..name + count + 12]);
    Adjacent(input, position, name, name + count);
    Adjacent(input, position, name + count, name + count + 4);
    Adjacent(input, position, name + count + 4, name + count + 12);
    assert HeaderBytes(FieldsAt(input, position, count)) == input[position..name + count + 12];
  }

  lemma HeaderAtLaidOut(o: Outside, input: seq<U8>, position: nat, h: Header)
    requires HeaderAt(o, input, position, h)
    ensures position + |HeaderBytes(h)| <= |input|
    ensures LaidOut(input[position..position + |HeaderBytes(h)|], h)
  {
    HeaderLaidOut(h);
    assert input[position..position + |HeaderBytes(h)|] == HeaderBytes(h);
  }

  lemma HeaderUnique(o: Outside, input: seq<U8>, position: nat, h: Header, g: Header)
    requires HeaderAt(o, input, position, h) && HeaderAt(o, input, position, g)
    ensures h == g
  {
    HeaderFields(o, input, position, h);
    HeaderFields(o, input, position, g);
  }

  lemma Parsed(o: Outside, input: seq<U8>, position: nat, count: nat)
    requires position + 20 + count <= |input| && FromBytes(input[position..position + 8]) == count
    requires o.isUtf8(input[position + 8..position + 8 + count])
    ensures var h := FieldsAt(input, position, count);
            && HeaderAt(o, input, position, h) && |HeaderBytes(h)| == 20 + count
            && LaidOut(input[position..position + 20 + count], h)
  {
    FieldsHeader(o, input, position, count);
    HeaderAtLaidOut(o, input, position, FieldsAt(input, position, count));
  }

  /** The bytes at `position` are too few for a header, or its name is not acceptable. */
  ghost predicate Unreadable(o: Outside, input: seq<U8>, position: nat)
    requires position <= |input|
  {
    position + 8 <= |input| ==>
      var count := FromBytes(input[position..position + 8]);
      position + 20 + count <= |input| ==> !o.isUtf8(input[position + 8..position + 8 + count])
  }

  /** Which error stands for what: a name that is not UTF-8, or not enough bytes (or a stream that failed). */
  ghost predicate HeaderError(e: Error, o: Outside, input: seq<U8>, position: nat, reliable: bool)
    requires position <= |input|
  {
    match e
    case StringFormat =>
      && position + 8 <= |input|
      && var count := FromBytes(input[position..position + 8]);
         position + 8 + count <= |input| && !o.isUtf8(input[position + 8..position + 8 + count])
    case Io =>
      reliable && position + 8 <= |input| ==> position + 20 + FromBytes(input[position..position + 8]) > |input|
    case _ => false
  }

  lemma NoHeader(o: Outside, input: seq<U8>, position: nat)
    requires position <= |input|
    ensures Unreadable(o, input, position) ==> forall h :: !HeaderAt(o, input, position, h)
  {
    forall h | HeaderAt(o, input, position, h)
      ensures !Unreadable(o, input, position)
    {
      HeaderFields(o, input, position, h);
    }
  }

  /** The first two fields: the length of the name and the name. */
  method ReadName(o: Outside, r: Source) returns (res: Result<seq<U8>, Error>)
    requires r.Valid()
    modifies r`position, r`returned
    ensures r.Valid() && old(r.position) <= r.position
    ensures res.Ok? ==>
              var start, count := old(r.position), |res.value|;
              && r.position == start + 8 + count
              && FromBytes(r.input[start..start + 8]) == count
              && res.value == r.input[start + 8..start + 8 + count] && o.isUtf8(res.value)
    ensures res.Err? ==>
              && HeaderError(res.error, o, r.input, old(r.position), r.reliable)
              && (r.reliable ==> Unreadable(o, r.input, old(r.position)))
  {
    var bytes := r.ReadExact(8);
    if bytes.Err? {
      return Err(Io);
    }
    var name := r.ReadExact(FromBytes(bytes.value));
    if name.Err? {
      return Err(Io);
    }
    if !o.isUtf8(name.value) {
      return Err(StringFormat);
    }
    res := Ok(name.value);
  }

  /** All four fields, one after the other. */
  method ReadFields(o: Outside, r: Source) returns (res: Result<Header, Error>)
    requires r.Valid()
    modifies r`position, r`returned
    ensures r.Valid() && old(r.position) <= r.position
    ensures res.Ok? ==>
              var start, count := old(r.position), |res.value.fileName|;
              && r.position == start + 20 + count
              && FromBytes(r.input[start..start + 8]) == count && o.isUtf8(r.input[start + 8..start + 8 + count])
              && res.value == FieldsAt(r.input, start, count)
    ensures res.Err? ==>
              && HeaderError(res.error, o, r.input, old(r.position), r.reliable)
              && (r.reliable ==> Unreadable(o, r.input, old(r.position)))
  {
    var name := ReadName(o, r);
    if name.Err? {
      return Err(name.error);
    }
    var mode := r.ReadExact(4);
    if mode.Err? {
      return Err(Io);
    }
    var length := r.ReadExact(8);
    if length.Err? {
      return Err(Io);
    }
    res := Ok(Header(name.value, FromBytes(mode.value), FromBytes(length.value)));
  }

  /** Parsing succeeds on a header followed by anything, returns it and stops right behind it; and it succeeds on
      nothing else. */
  method ReadHeader(o: Outside, r: Source) returns (res: Result<Header, Error>)
    requires r.Valid()
    modifies r`position, r`returned
    ensures r.Valid() && old(r.position) <= r.position
    ensures res.Ok? ==>
              && HeaderAt(o, r.input, old(r.position), res.value)
              && r.position == old(r.position) + |HeaderBytes(res.value)| <= |r.input|
              && LaidOut(r.input[old(r.position)..r.position], res.value)
    ensures res.Err? ==> HeaderError(res.error, o, r.input, old(r.position), r.reliable)
    ensures r.reliable && res.Err? ==> forall h :: !HeaderAt(o, r.input, old(r.position), h)
  {
    ghost var start := r.position;
    res := ReadFields(o, r);
    if res.Ok? {
      Parsed(o, r.input, start, |res.value.fileName|);
    } else {
      NoHeader(o, r.input, start);
    }
  }

  /** Hash some bytes, if hashing, and write them. */
  method PassOn(sink: Sink, hasher: seq<HashWrite>, hash: bool, w: HashWrite) returns (ok: bool, more: seq<HashWrite>)
    modifies sink`written
    ensures more == if hash then hasher + [w] else hasher
    ensures ok ==> sink.written == old(sink.written) + w.bytes
    ensures sink.reliable ==> ok
  {
    more := if hash then hasher + [w] else hasher;
    ok := sink.WriteAll(w.bytes);
  }

  /** Of `content`, the bytes of `gone` were stored and then those of `held` buffered; now `more` follows. */
  lemma OneMorePart(content: seq<U8>, gone: seq<U8>, held: seq<U8>, before: nat, after: nat)
    requires before <= after <= |content| && gone + held == content[..before]
    ensures gone + (held + content[before..after]) == content[..after]
  {
  }

  ghost function Flat(writes: seq<HashWrite>): seq<U8> {
    if writes == [] then [] else writes[0].bytes + Flat(writes[1..])
  }

  /** The bytes of `gone` were hashed in whole buffers of `size` bytes. */
  ghost predicate HashedWhole(writes: seq<HashWrite>, gone: seq<U8>, size: nat) {
    Flat(writes) == gone && forall i :: 0 <= i < |writes| ==> writes[i].Whole? && |writes[i].bytes| == size
  }

  lemma {:induction false} FlatSnoc(writes: seq<HashWrite>, w: HashWrite)
    ensures Flat(writes + [w]) == Flat(writes) + w.bytes
  {
    if writes == [] {
      assert writes + [w] == [w] && [w][1..] == [];
    } else {
      assert (writes + [w])[1..] == writes[1..] + [w];
      FlatSnoc(writes[1..], w);
    }
  }

  /** What the calls on the hasher are: together the content, all of them whole buffers but perhaps the last, which is
      bare and shorter. */
  lemma {:induction false} ChunksAre(content: seq<U8>, size: nat)
    requires 0 < size
    ensures Flat(Chunks(content, size)) == content
    ensures forall i :: 0 <= i < |Chunks(content, size)| ==>
              var w := Chunks(content, size)[i];
              || (w.Whole? && |w.bytes| == size)
              || (w.Raw? && 0 < |w.bytes| < size && i == |Chunks(content, size)| - 1)
  {
    if size <= |content| {
      ChunksAre(content[size..], size);
      assert content == content[..size] + content[size..];
    } else if content != [] {
      assert [Raw(content)][1..] == [];
    }
  }

  /** Whole buffers and then a rest smaller than the buffer are the calls for their bytes. */
  lemma {:induction false} WholeAndRest(writes: seq<HashWrite>, rest: seq<U8>, size: nat)
    requires HashedWhole(writes, Flat(writes), size) && |rest| < size
    ensures Chunks(Flat(writes) + rest, size) == writes + if rest != [] then [Raw(rest)] else []
  {
    var content := Flat(writes) + rest;
    if writes == [] {
      assert content == rest;
    } else {
      WholeAndRest(writes[1..], rest, size);
      assert content[..size] == writes[0].bytes;
      assert content[size..] == Flat(writes[1..]) + rest;
    }
  }

  /** A full buffer: hash it whole and write it. */
  method StoreChunk(sink: Sink, writes: seq<HashWrite>, hash: bool, chunk: seq<U8>, ghost gone: seq<U8>)
    returns (ok: bool, hasher: seq<HashWrite>)
    requires hash ==> HashedWhole(writes, gone, |chunk|)
    modifies sink`written
    ensures ok ==> sink.written == old(sink.written) + chunk
    ensures hash ==> HashedWhole(hasher, gone + chunk, |chunk|)
    ensures sink.reliable ==> ok
  {
    FlatSnoc(writes, Whole(chunk));
    ok, hasher := PassOn(sink, writes, hash, Whole(chunk));
  }

  /** At the end of the content, with `rest` still in the buffer: whether and how it is hashed and written. */
  method StoreRest(sink: Sink, hasher: seq<HashWrite>, hash: bool, rest: seq<U8>, bufferSize: nat, ghost gone: seq<U8>)
    returns (ok: bool, writes: seq<HashWrite>)
    requires hash ==> HashedWhole(hasher, gone, bufferSize)
    requires 0 < bufferSize ==> |rest| < bufferSize
    modifies sink`written
    ensures ok ==> sink.written == old(sink.written) + rest
    ensures hash && 0 < bufferSize ==> writes == Chunks(gone + rest, bufferSize)
    ensures sink.reliable ==> ok
  {
    if hash && 0 < bufferSize {
      WholeAndRest(hasher, rest, bufferSize);
    }
    ok, writes := true, hasher;
    if 0 < |rest| {
      ok, writes := PassOn(sink, hasher, hash, Raw(rest));
    }
  }

  /** The content through the buffer. Whatever the sizes of the reads, the bytes sent and the calls on the hasher
      depend on the content and the buffer size only. An empty buffer sends nothing. */
  method SendBody(file: Source, diode: Sink, bufferSize: nat, hash: bool)
    returns (ok: bool, total: nat, hasher: seq<HashWrite>)
    requires file.Valid() && file.position == 0
    modifies file`position, file`returned, diode`written
    ensures ok && 0 < bufferSize ==>
              && total == |file.input| && diode.written == old(diode.written) + file.input
              && (hash ==> hasher == Chunks(file.input, bufferSize))
    ensures file.reliable && diode.reliable ==> ok
  {
    var buffer := new U8[bufferSize](_ => 0);
    var cursor := 0;
    total := 0;
    hasher := [];
    ghost var gone: seq<U8>, held: seq<U8> := [], [];
    ghost var input, sent := file.input, diode.written;
    while true
      invariant file.Valid() && cursor <= bufferSize && (0 < bufferSize ==> cursor < bufferSize)
      invariant |gone| == total && |held| == cursor && buffer[..cursor] == held
      invariant gone + held == input[..file.position] && diode.written == sent + gone
      invariant hash ==> HashedWhole(hasher, gone, bufferSize)
      decreases |input| - file.position
    {
      ghost var before := file.position;
      var n, chunk := ReadOn(file, buffer, cursor, bufferSize, held);
      if n.Err? {
        return false, total, hasher;
      }
      var nread := n.value;
      OneMorePart(input, gone, held, before, file.position);
      if nread == 0 {
        if 0 < bufferSize {
          UpToTheEnd(gone + chunk, input, file.position);
        }
        total := total + cursor;
        ok, hasher := StoreRest(diode, hasher, hash, chunk, bufferSize, gone);
        return ok, total, hasher;
      }
      if cursor + nread < bufferSize {
        cursor, held := cursor + nread, chunk;
        continue;
      }
      ok, hasher := StoreChunk(diode, hasher, hash, chunk, gone);
      if !ok {
        return false, total, hasher;
      }
      total := total + bufferSize;
      gone, held := gone + chunk, [];
      cursor := 0;
    }
  }

  /** Send a file: header, content, footer. */
  method SendFile(o: Outside, h: Header, file: Source, diode: Sink, bufferSize: nat, hash: bool)
    returns (r: Result<nat, Error>)
    requires file.Valid() && file.position == 0
    modifies file`position, file`returned, diode`written
    ensures r.Ok? && 0 < bufferSize ==>
              && r.value == |file.input|
              && diode.written == old(diode.written) + HeaderBytes(h) + file.input
                                  + FooterBytes(SentHash(o, file.input, bufferSize, hash))
              && var footer := |diode.written| - 16;
                 0 <= footer && FromBytes(diode.written[footer..])
                                == if hash then o.finish(Chunks(file.input, bufferSize)) else 0
    ensures file.reliable && diode.reliable ==> r.Ok?
  {
    var ok := WriteHeader(h, diode);
    if !ok {
      return Err(Io);
    }
    var total, hasher;
    ok, total, hasher := SendBody(file, diode, bufferSize, hash);
    if !ok {
      return Err(Io);
    }
    var footer: Hash := if hash then o.finish(hasher) else NO_HASH;
    ok := diode.WriteAll(FooterBytes(footer));
    if !ok {
      return Err(Io);
    }
    NumberRoundTrip(footer, FOOTER_SIZE);
    assert diode.written[|diode.written| - 16..] == FooterBytes(footer);
    r := Ok(total);
  }

  /** The hash announced in the footer. */
  function SentHash(o: Outside, content: seq<U8>, bufferSize: nat, hash: bool): Hash {
    if hash then o.finish(Chunks(content, bufferSize)) else NO_HASH
  }

  /** What follows the header at `start`: `length` bytes of content and a footer. */
  ghost predicate BodyAt(input: seq<U8>, start: nat, length: nat) {
    start + length + FOOTER_SIZE <= |input|
  }

  ghost function Announced(input: seq<U8>, start: nat, length: nat): nat
    requires BodyAt(input, start, length)
  {
    FromBytes(input[start + length..start + length + FOOTER_SIZE])
  }

  /** The content and footer at `start` do not agree on the hash. */
  ghost predicate Disagrees(o: Outside, input: seq<U8>, start: nat, length: nat, bufferSize: nat)
    requires BodyAt(input, start, length)
  {
    o.finish(Chunks(input[start..start + length], bufferSize)) != Announced(input, start, length)
  }

  /** Which error stands for what, once the header is read. The sizes disagree only for an empty buffer, since a stream
      that ends too early has no footer either. */
  ghost predicate BodyError(e: Error, o: Outside, input: seq<U8>, start: nat, length: nat, bufferSize: nat, hash: bool,
                            reliable: bool)
  {
    match e
    case InvalidFileSize(expected, received) => bufferSize == 0 && expected == length > 0 && received == 0
    case InvalidHash(computed, announced) =>
      && hash && BodyAt(input, start, length)
      && announced == Announced(input, start, length) && computed != announced
      && (0 < bufferSize ==> computed == o.finish(Chunks(input[start..start + length], bufferSize)))
    case Io => reliable ==> !BodyAt(input, start, length)
    case StringFormat => false
  }

  /** How the part behind the header ends, when it starts at `start`: the whole announced content is written, nothing
      more and nothing less, the footer is read from right behind it, and, when hashing, agrees; or there is an error,
      and the right one. */
  ghost predicate BodyOutcome(r: Result<nat, Error>, o: Outside, input: seq<U8>, start: nat, length: nat,
                              written: seq<U8>, position: nat, bufferSize: nat, hash: bool, reliable: bool)
  {
    match r
    case Ok(n) =>
      && BodyAt(input, start, length) && n == length
      && written == input[start..start + length] && position == start + length + FOOTER_SIZE
      && (hash && 0 < bufferSize ==> !Disagrees(o, input, start, length, bufferSize))
    case Err(e) => BodyError(e, o, input, start, length, bufferSize, hash, reliable)
  }

  /** Receive a file: either the header is not read, and the error says why, or the rest ends as it should. */
  method ReceiveFile(o: Outside, diode: Source, file: Sink, bufferSize: nat, hash: bool)
    returns (r: Result<nat, Error>, ghost h: Header)
    requires diode.Valid() && file.written == []
    modifies diode`position, diode`returned, file`written
    ensures diode.Valid()
    ensures var first := old(diode.position);
            || (&& r.Err? && HeaderError(r.error, o, diode.input, first, diode.reliable)
                && (diode.reliable ==> forall g :: !HeaderAt(o, diode.input, first, g)))
            || (&& HeaderAt(o, diode.input, first, h)
                && BodyOutcome(r, o, diode.input, first + |HeaderBytes(h)|, h.fileLength, file.written, diode.position,
                               bufferSize, hash, diode.reliable && file.reliable))
  {
    var header := ReadHeader(o, diode);
    if header.Err? {
      h := Header([], 0, 0);
      return Err(header.error), h;
    }
    h := header.value;
    r := ReceiveBody(o, diode, file, header.value.fileLength, bufferSize, hash);
  }

  /** On streams that do not fail and with a non-empty buffer, a content with a footer is refused only for its hash. */
  lemma RefusedForHash(e: Error, o: Outside, input: seq<U8>, start: nat, length: nat, bufferSize: nat, hash: bool)
    requires BodyError(e, o, input, start, length, bufferSize, hash, true) && 0 < bufferSize
    ensures BodyAt(input, start, length) ==> hash && Disagrees(o, input, start, length, bufferSize)
  {
  }

  /** The bytes at `start` that can be read as content. */
  ghost function Available(input: seq<U8>, start: nat, length: nat): seq<U8>
    requires start <= |input|
  {
    input[start..if start + length <= |input| then start + length else |input|]
  }

  lemma AvailablePart(input: seq<U8>, start: nat, length: nat, a: nat, b: nat)
    requires start <= |input| && a <= b <= |Available(input, start, length)|
    ensures Available(input, start, length)[a..b] == input[start + a..start + b]
  {
    PartOfPart(input, start, start + |Available(input, start, length)|, a, b);
  }

  /** `more` bytes more of the content, behind those of `gone` and `held`. */
  lemma MoreAvailable(input: seq<U8>, start: nat, length: nat, gone: seq<U8>, held: seq<U8>, done: nat, more: nat)
    requires start <= |input| && done + more <= |Available(input, start, length)|
    requires gone + held == Available(input, start, length)[..done]
    ensures gone + (held + input[start + done..start + done + more]) == Available(input, start, length)[..done + more]
  {
    AvailablePart(input, start, length, done, done + more);
    OneMorePart(Available(input, start, length), gone, held, done, done + more);
  }

  method ReceiveBody(o: Outside, diode: Source, file: Sink, length: nat, bufferSize: nat, hash: bool)
    returns (r: Result<nat, Error>)
    requires diode.Valid() && file.written == []
    modifies diode`position, diode`returned, file`written
    ensures diode.Valid()
    ensures BodyOutcome(r, o, diode.input, old(diode.position), length, file.written, diode.position, bufferSize, hash,
                        diode.reliable && file.reliable)
  {
    ghost var body := Available(diode.input, diode.position, length);
    var ok, rest, remaining, hasher := ReceiveContent(diode, file, length, bufferSize, hash, body);
    if !ok {
      return Err(Io);
    }
    assert remaining == 0 ==> body[..length] == body;
    r := FinishBody(o, diode, file, rest, length, remaining, bufferSize, hash, hasher, body);
  }

  /** The receive loop, until a read returns nothing: what was read is in the file, but for `rest`, which is still
      in the buffer; `remaining` bytes of the content were not there to read. No byte behind it is consumed. */
  method ReceiveContent(diode: Source, file: Sink, length: nat, bufferSize: nat, hash: bool, ghost body: seq<U8>)
    returns (ok: bool, rest: seq<U8>, remaining: nat, hasher: seq<HashWrite>)
    requires diode.Valid() && file.written == []
    requires body == Available(diode.input, diode.position, length)
    modifies diode`position, diode`returned, file`written
    ensures diode.Valid()
    ensures diode.reliable && file.reliable ==> ok
    ensures ok ==>
              && remaining <= length && length - remaining <= |body|
              && diode.position == old(diode.position) + length - remaining
              && (0 < bufferSize ==> |rest| < bufferSize && (remaining == 0 || diode.position == |diode.input|))
              && file.written + rest == body[..length - remaining]
              && (hash ==> HashedWhole(hasher, file.written, bufferSize))
              && (bufferSize == 0 ==> remaining == length)
  {
    var buffer := new U8[bufferSize](_ => 0);
    var cursor := 0;
    remaining := length;
    hasher := [];
    rest := [];
    ghost var input, start := diode.input, diode.position;
    while true
      invariant diode.Valid() && cursor <= bufferSize && (0 < bufferSize ==> cursor < bufferSize)
      invariant remaining <= length && length - remaining <= |body|
      invariant diode.position == start + length - remaining
      invariant bufferSize == 0 ==> remaining == length
      invariant |rest| == cursor && buffer[..cursor] == rest
      invariant file.written + rest == body[..length - remaining]
      invariant hash ==> HashedWhole(hasher, file.written, bufferSize)
      decreases remaining
    {
      var end := if remaining >= bufferSize - cursor then bufferSize else cursor + remaining;
      ghost var done, held := length - remaining, rest;
      var n;
      n, rest := ReadOn(diode, buffer, cursor, end, held);
      if n.Err? {
        return false, rest, remaining, hasher;
      }
      var nread := n.value;
      MoreAvailable(input, start, length, file.written, held, done, nread);
      if nread == 0 {
        return true, rest, remaining, hasher;
      }
      remaining := remaining - nread;
      if cursor + nread < bufferSize {
        cursor := cursor + nread;
        continue;
      }
      ok, hasher := StoreChunk(file, hasher, hash, rest, file.written);
      if !ok {
        return false, rest, remaining, hasher;
      }
      cursor := 0;
      rest := [];
    }
  }

  /** Which error stands for what, at the end of the receive loop. */
  ghost predicate FinishError(e: Error, o: Outside, input: seq<U8>, at: nat, body: seq<U8>, length: nat, remaining: nat,
                              bufferSize: nat, hash: bool, reliable: bool)
  {
    match e
    case InvalidFileSize(expected, received) =>
      remaining != 0 && at + FOOTER_SIZE <= |input| && expected == length && received == length - remaining
    case InvalidHash(computed, announced) =>
      && hash && remaining == 0 && at + FOOTER_SIZE <= |input|
      && announced == FromBytes(input[at..at + FOOTER_SIZE]) && computed != announced
      && (0 < bufferSize ==> computed == o.finish(Chunks(body, bufferSize)))
    case Io => reliable ==> at + FOOTER_SIZE > |input|
    case StringFormat => false
  }

  /** The end of the receive loop, with `rest` still in the buffer and `remaining` bytes missing. */
  method FinishBody(o: Outside, diode: Source, file: Sink, rest: seq<U8>, length: nat, remaining: nat, bufferSize: nat,
                    hash: bool, writes: seq<HashWrite>, ghost body: seq<U8>)
    returns (r: Result<nat, Error>)
    requires diode.Valid() && remaining <= length
    requires 0 < bufferSize ==> |rest| < bufferSize
    requires remaining == 0 ==> file.written + rest == body
    requires hash ==> HashedWhole(writes, file.written, bufferSize)
    modifies diode`position, diode`returned, file`written
    ensures diode.Valid()
    ensures var at := old(diode.position);
            && (r.Ok? ==>
                  && remaining == 0 && at + FOOTER_SIZE <= |diode.input| && r.value == length
                  && file.written == body && diode.position == at + FOOTER_SIZE
                  && (hash && 0 < bufferSize ==>
                        o.finish(Chunks(body, bufferSize)) == FromBytes(diode.input[at..at + FOOTER_SIZE])))
            && (r.Err? && diode.reliable && file.reliable && remaining == 0 && at + FOOTER_SIZE <= |diode.input|
                && 0 < bufferSize ==>
                  hash && o.finish(Chunks(body, bufferSize)) != FromBytes(diode.input[at..at + FOOTER_SIZE]))
            && (r.Err? ==> FinishError(r.error, o, diode.input, at, body, length, remaining, bufferSize, hash,
                                       diode.reliable && file.reliable))
  {
    var ok, hasher := StoreRest(file, writes, hash, rest, bufferSize, file.written);
    if !ok {
      return Err(Io);
    }
    r := CheckFooter(o, diode, length, remaining, hash, hasher);
  }

  /** Read the footer, and compare first the sizes and then the hashes. */
  method CheckFooter(o: Outside, diode: Source, length: nat, remaining: nat, hash: bool, hasher: seq<HashWrite>)
    returns (r: Result<nat, Error>)
    requires diode.Valid() && remaining <= length
    modifies diode`position, diode`returned
    ensures diode.Valid()
    ensures var at := old(diode.position);
            && (r.Ok? ==>
                  && at + FOOTER_SIZE <= |diode.input| && diode.position == at + FOOTER_SIZE
                  && remaining == 0 && r.value == length
                  && (hash ==> o.finish(hasher) == FromBytes(diode.input[at..at + FOOTER_SIZE])))
            && (r.Err? ==>
                  match r.error
                  case InvalidFileSize(expected, received) =>
                    && remaining != 0 && at + FOOTER_SIZE <= |diode.input|
                    && expected == length && received == length - remaining
                  case InvalidHash(computed, announced) =>
                    && hash && remaining == 0 && at + FOOTER_SIZE <= |diode.input|
                    && announced == FromBytes(diode.input[at..at + FOOTER_SIZE])
                    && computed == o.finish(hasher) != announced
                  case Io => diode.reliable ==> at + FOOTER_SIZE > |diode.input|
                  case StringFormat => false)
  {
    var received := length - remaining;
    var footer := diode.ReadExact(FOOTER_SIZE);
    if footer.Err? {
      return Err(Io);
    }
    if remaining != 0 {
      return Err(InvalidFileSize(length, received));
    }
    if hash {
      var computed := o.finish(hasher);
      if FromBytes(footer.value) != computed {
        BytesRoundTrip(footer.value);
        return Err(InvalidHash(computed, FromBytes(footer.value)));
      }
    }
    r := Ok(received);
  }

  lemma SentStream(o: Outside, h: Header, content: seq<U8>, hash: Hash)
    requires h.Valid() && o.isUtf8(h.fileName) && h.fileLength == |content|
    ensures var stream := HeaderBytes(h) + content + FooterBytes(hash);
            var start := |HeaderBytes(h)|;
            && HeaderAt(o, stream, 0, h) && BodyAt(stream, start, |content|)
            && stream[start..start + |content|] == content
            && Announced(stream, start, |content|) == hash
  {
    var stream := HeaderBytes(h) + content + FooterBytes(hash);
    var none: seq<U8> := [];
    FourParts(HeaderBytes(h), content, FooterBytes(hash), none);
    assert stream + none == stream && stream[0..] == stream;
    NumberRoundTrip(hash, FOOTER_SIZE);
  }

  /** File round trip, over a stream that loses nothing: for every positive buffer size at each end and every
      schedule of short reads, what is received is the file, and the transfer is accepted exactly when the receiver
      does not check hashes or the two hashes are equal; always when both ends hash with buffers of equal size. */
  method RoundTrip(o: Outside, name: seq<U8>, mode: nat, content: seq<U8>,
                   sendBuffer: nat, receiveBuffer: nat, sendHash: bool, checkHash: bool)
    returns (r: Result<nat, Error>, received: seq<U8>)
    requires |name| < U64_LIMIT && mode < U32_LIMIT && |content| < U64_LIMIT && o.isUtf8(name)
    requires 0 < sendBuffer && 0 < receiveBuffer
    ensures r.Ok? <==>
            !checkHash || o.finish(Chunks(content, receiveBuffer)) == SentHash(o, content, sendBuffer, sendHash)
    ensures r.Ok? ==> r.value == |content| && received == content
    ensures sendHash && sendBuffer == receiveBuffer ==> r.Ok?
  {
    var header := Header(name, mode, |content|);
    var source := new Source(content, true);
    var diode := new Sink(true);
    var sent := SendFile(o, header, source, diode, sendBuffer, sendHash);
    var stream := new Source(diode.written, true);
    var file := new Sink(true);
    ghost var h;
    assert diode.written == HeaderBytes(header) + content + FooterBytes(SentHash(o, content, sendBuffer, sendHash));
    SentStream(o, header, content, SentHash(o, content, sendBuffer, sendHash));
    r, h := ReceiveFile(o, stream, file, receiveBuffer, checkHash);
    HeaderUnique(o, stream.input, 0, h, header);
    if r.Err? {
      RefusedForHash(r.error, o, stream.input, |HeaderBytes(header)|, |content|, receiveBuffer, checkHash);
    }
    received := file.written;
  }
}
