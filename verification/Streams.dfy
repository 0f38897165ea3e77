/** The ends of byte streams: a source that may return fewer bytes than asked for, and a sink. Unless declared
    reliable both may fail at any call. */
module Streams {
  import opened Words
  import opened Wrappers

  class Source {
    const input: seq<U8>
    const reliable: bool
    var position: nat
    // history: what each successful read returned
    ghost var returned: seq<seq<U8>>

    ghost predicate Valid()
      reads this
    {
      position <= |input|
    }

    constructor (bytes: seq<U8>, sound: bool)
      ensures Valid() && input == bytes && reliable == sound && position == 0 && returned == []
    {
      input := bytes;
      reliable := sound;
      position := 0;
      returned := [];
    }

    /** `io::Read::read` into `buffer[from..to]`: any positive number of bytes up to what fits and what is left;
        zero exactly when nothing fits or nothing is left. Failing consumes nothing. */
    method Read(buffer: array<U8>, from: nat, to: nat) returns (r: Result<nat, string>)
      requires Valid() && from <= to <= buffer.Length
      modifies this`position, this`returned, buffer
      ensures Valid()
      ensures r.Ok? ==>
                && r.value <= to - from && (r.value == 0 <==> from == to || old(position) == |input|)
                && position == old(position) + r.value
                && buffer[..] == old(buffer[..from]) + input[old(position)..position] + old(buffer[from + r.value..])
      ensures r.Err? ==> position == old(position)
      ensures returned == if r.Ok? then old(returned) + [input[old(position)..position]] else old(returned)
      ensures reliable ==> r.Ok?
    {
      var fails := !reliable;
      if * {
        fails := false;
      }
      if fails {
        return Err("read");
      }
      var limit := if to - from < |input| - position then to - from else |input| - position;
      var count: nat :| count <= limit && (count == 0 <==> limit == 0);
      for i := 0 to count
        invariant position == old(position) && returned == old(returned)
        invariant forall j :: 0 <= j < buffer.Length ==>
          buffer[j] == if from <= j < from + i then input[position + j - from] else old(buffer[j])
      {
        buffer[from + i] := input[position + i];
      }
      returned := returned + [input[position..position + count]];
      position := position + count;
      assert buffer[..] == old(buffer[..from]) + input[old(position)..position] + old(buffer[from + count..]);
      r := Ok(count);
    }

    /** `io::Read::read_exact`: all of the next `count` bytes, or an error. */
    method ReadExact(count: nat) returns (r: Result<seq<U8>, string>)
      requires Valid()
      modifies this`position, this`returned
      ensures Valid() && old(position) <= position
      ensures r.Ok? ==> position == old(position) + count && r.value == input[old(position)..position]
      ensures reliable ==> (r.Ok? <==> old(position) + count <= |input|)
    {
      var buffer := new U8[count](_ => 0);
      var cursor := 0;
      while cursor < count
        invariant Valid() && cursor <= count && position == old(position) + cursor
        invariant buffer[..cursor] == input[old(position)..position]
      {
        ghost var kept := buffer[..cursor];
        var n := this.Read(buffer, cursor, count);
        if n.Err? {
          return Err(n.error);
        }
        if n.value == 0 {
          return Err("unexpected end of file");
        }
        cursor := cursor + n.value;
        assert buffer[..cursor] == kept + input[position - n.value..position];
      }
      assert buffer[..] == buffer[..cursor];
      r := Ok(buffer[..]);
    }
  }

  /** Read on behind the bytes already buffered, `held`; `chunk` is what the buffer then holds. */
  method ReadOn(source: Source, buffer: array<U8>, cursor: nat, end: nat, ghost held: seq<U8>)
    returns (r: Result<nat, string>, chunk: seq<U8>)
    requires source.Valid() && cursor <= end <= buffer.Length && buffer[..cursor] == held
    modifies source`position, source`returned, buffer
    ensures source.Valid()
    ensures r.Ok? ==>
              && r.value <= end - cursor && (r.value == 0 <==> cursor == end || old(source.position) == |source.input|)
              && source.position == old(source.position) + r.value
              && buffer[..cursor + r.value] == chunk == held + source.input[old(source.position)..source.position]
    ensures source.returned ==
            old(source.returned) + if r.Ok? then [source.input[old(source.position)..source.position]] else []
    ensures r.Err? ==> source.position == old(source.position)
    ensures source.reliable ==> r.Ok?
  {
    ghost var before := source.position;
    r := source.Read(buffer, cursor, end);
    chunk := [];
    if r.Ok? {
      chunk := buffer[..cursor + r.value];
      assert chunk == held + source.input[before..source.position];
    }
  }

  class Sink {
    const reliable: bool
    var written: seq<U8>

    constructor (sound: bool)
      ensures reliable == sound && written == []
    {
      reliable := sound;
      written := [];
    }

    /** `io::Write::write_all`: everything, or a part and an error. */
    method WriteAll(data: seq<U8>) returns (ok: bool)
      modifies this`written
      ensures old(written) <= written <= old(written) + data
      ensures ok ==> written == old(written) + data
      ensures reliable ==> ok
    {
      ok := reliable;
      if * {
        ok := true;
      }
      var done := |data|;
      if !ok {
        done :| 0 <= done <= |data|;
      }
      written := written + data[..done];
    }
  }
}
