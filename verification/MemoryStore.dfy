/** The in-memory blob store (`internal/storage/memory.go`), with Go slices:
    `append` may write into the backing array that open readers share. */
module MemoryStore {
  import opened Wrappers

  newtype Byte = b: int | 0 <= b < 256

  /** A Go slice: length `len` at `off` of its backing array, capacity to the end. */
  datatype Slice = Slice(arr: array<Byte>, off: nat, len: nat) {
    predicate InBounds() {
      off + len <= arr.Length
    }

    function Bytes(): seq<Byte>
      requires InBounds()
      reads arr
    {
      arr[off..off + len]
    }
  }

  /** A new backing array holding `b`, with arbitrary spare capacity. */
  method MakeSlice(b: seq<Byte>, spare: nat) returns (s: Slice)
    ensures fresh(s.arr) && s.InBounds() && s.Bytes() == b
  {
    var arr := new Byte[|b| + spare](i => if 0 <= i < |b| then b[i] else 0);
    s := Slice(arr, 0, |b|);
    assert arr[0..|b|] == b;
  }

  /** `append(s, b...)`: in place when the capacity allows it, else a copy. Only
      bytes past the end of `s` are ever written. */
  method Append(s: Slice, b: seq<Byte>, spare: nat) returns (t: Slice)
    requires s.InBounds()
    modifies s.arr
    ensures t.InBounds() && t.Bytes() == old(s.Bytes()) + b
    ensures if s.off + s.len + |b| <= s.arr.Length then t == Slice(s.arr, s.off, s.len + |b|) else fresh(t.arr)
    ensures forall i | 0 <= i < s.off + s.len :: s.arr[i] == old(s.arr[i])
  {
    var end := s.off + s.len;
    if end + |b| <= s.arr.Length {
      for k := 0 to |b|
        invariant forall i | 0 <= i < end :: s.arr[i] == old(s.arr[i])
        invariant forall i | 0 <= i < k :: s.arr[end + i] == b[i]
      {
        s.arr[end + k] := b[k];
      }
      t := Slice(s.arr, s.off, s.len + |b|);
      assert t.Bytes() == old(s.Bytes()) + b;
    } else {
      t := MakeSlice(s.Bytes() + b, spare);
    }
  }

  /** A handle from `Writer` or `Appender`; bytes are buffered until `Close`. */
  class WriteHandle {
    const path: string
    var buffer: seq<Byte>

    constructor (path: string)
      ensures this.path == path && buffer == []
    {
      this.path, this.buffer := path, [];
    }

    method Write(p: seq<Byte>) returns (n: nat)
      modifies this
      ensures buffer == old(buffer) + p && n == |p|
    {
      buffer := buffer + p;
      n := |p|;
    }
  }

  /** A `bytes.Reader` over part of a stored slice; `snapshot` is history. */
  class MemoryReader {
    const slice: Slice
    var pos: nat
    ghost const snapshot: seq<Byte>

    constructor (slice: Slice)
      requires slice.InBounds()
      ensures this.slice == slice && snapshot == slice.Bytes() && pos == 0
    {
      this.slice, this.pos, this.snapshot := slice, 0, slice.Bytes();
    }

    /** The backing array still holds what was there at opening time. */
    ghost predicate Intact()
      reads slice.arr
    {
      slice.InBounds() && slice.Bytes() == snapshot
    }

    /** Successive reads return successive bytes of what was opened. */
    method Read(n: nat) returns (p: seq<Byte>)
      requires Intact() && pos <= |snapshot|
      modifies this
      ensures old(pos) <= pos <= |snapshot| && p == snapshot[old(pos)..pos]
      ensures |p| == if n <= |snapshot| - old(pos) then n else |snapshot| - old(pos)
    {
      var take := if n <= slice.len - pos then n else slice.len - pos;
      p := slice.arr[slice.off + pos..slice.off + pos + take];
      assert forall i | 0 <= i < take :: p[i] == slice.Bytes()[pos + i];
      pos := pos + take;
    }
  }

  ghost function Arrays(data: map<string, Slice>, readers: set<MemoryReader>): set<object> {
    (set p | p in data :: data[p].arr as object) + (set r | r in readers :: r.slice.arr as object)
  }

  ghost predicate Stored(s: Slice, b: seq<Byte>)
    reads s.arr
  {
    s.InBounds() && s.Bytes() == b
  }

  ghost predicate Within(r: MemoryReader, file: Slice) {
    r.slice.off + r.slice.len <= file.off + file.len
  }

  /** Stored files never share a backing array, and a reader never reaches past
      the end of the file stored on its array. */
  ghost predicate Separate(data: map<string, Slice>, readers: set<MemoryReader>) {
    && (forall p, q | p in data && q in data && p != q :: data[p].arr != data[q].arr)
    && (forall r, p | r in readers && p in data && r.slice.arr == data[p].arr :: Within(r, data[p]))
  }

  /** The slices hold `contents`, and every reader what it opened. */
  ghost predicate Represents(data: map<string, Slice>, contents: map<string, seq<Byte>>, readers: set<MemoryReader>)
    reads Arrays(data, readers)
  {
    && Separate(data, readers) && contents.Keys == data.Keys
    && (forall p | p in data :: Stored(data[p], contents[p]))
    && (forall r | r in readers :: r.Intact())
  }

  /** Point a path at `s`, which covers whatever readers see of its array. */
  lemma {:induction false} Repoint(data: map<string, Slice>, contents: map<string, seq<Byte>>, readers: set<MemoryReader>, path: string, s: Slice, b: seq<Byte>)
    requires Represents(data, contents, readers) && Stored(s, b)
    requires forall p | p in data && p != path :: data[p].arr != s.arr
    requires forall r | r in readers && r.slice.arr == s.arr :: Within(r, s)
    ensures Represents(data[path := s], contents[path := b], readers)
  {
  }

  lemma {:induction false} Remove(data: map<string, Slice>, contents: map<string, seq<Byte>>, readers: set<MemoryReader>, path: string)
    requires Represents(data, contents, readers)
    ensures Represents(data - {path}, contents - {path}, readers)
  {
  }

  /** Taking the source away first is the same. */
  lemma {:induction false} RemoveFirst<T>(m: map<string, T>, source: string, dest: string)
    requires source in m
    ensures m[dest := m[source]] - {source} == if source == dest then m - {source} else (m - {source})[dest := m[source]]
  {
  }

  lemma {:induction false} Rename(data: map<string, Slice>, contents: map<string, seq<Byte>>, readers: set<MemoryReader>, source: string, dest: string)
    requires Represents(data, contents, readers) && source in data
    ensures Represents(data[dest := data[source]] - {source}, contents[dest := contents[source]] - {source}, readers)
  {
    Remove(data, contents, readers, source);
    RemoveFirst(data, source, dest);
    RemoveFirst(contents, source, dest);
    if source != dest {
      Repoint(data - {source}, contents - {source}, readers, dest, data[source], contents[source]);
    }
  }

  lemma {:induction false} AddReader(data: map<string, Slice>, contents: map<string, seq<Byte>>, readers: set<MemoryReader>, path: string, r: MemoryReader)
    requires Represents(data, contents, readers) && path in data
    requires r.slice.arr == data[path].arr && Within(r, data[path]) && r.Intact()
    ensures Represents(data, contents, readers + {r})
  {
  }

  /** What opening a reader comes to. */
  datatype OpenResult = NotFound | Panics | Opened(reader: MemoryReader)

  /** `contents`, the abstract store, is a map from path to bytes; `readers` are
      all the readers ever opened. */
  class MemoryProvider {
    var data: map<string, Slice>
    ghost var contents: map<string, seq<Byte>>
    ghost var readers: set<MemoryReader>

    ghost predicate Valid()
      reads this, Arrays(data, readers)
    {
      Represents(data, contents, readers)
    }

    constructor ()
      ensures Valid() && contents == map[] && readers == {}
    {
      data, contents, readers := map[], map[], {};
    }

    /** `memoryWriter.Close`. */
    method CloseWriter(h: WriteHandle, spare: nat)
      requires Valid()
      modifies this`data, this`contents
      ensures Valid() && contents == old(contents)[h.path := h.buffer]
    {
      var s := MakeSlice(h.buffer, spare);
      Repoint(data, contents, readers, h.path, s, h.buffer);
      data, contents := data[h.path := s], contents[h.path := h.buffer];
    }

    /** `memoryAppender.Close`: one file grows, every open reader still sees
        what it opened. */
    method CloseAppender(h: WriteHandle, spare: nat)
      requires Valid()
      modifies this`data, this`contents, if h.path in data then {data[h.path].arr} else {}
      ensures Valid()
      ensures contents ==
        old(contents)[h.path := (if h.path in old(contents) then old(contents)[h.path] else []) + h.buffer]
    {
      if h.path in data {
        Extend(h.path, h.buffer, spare);
      } else {
        CloseWriter(h, spare);
        assert [] + h.buffer == h.buffer;
      }
    }

    method Extend(path: string, b: seq<Byte>, spare: nat)
      requires Valid() && path in data
      modifies this`data, this`contents, data[path].arr
      ensures Valid() && contents == old(contents)[path := old(contents)[path] + b]
    {
      var existing := data[path];
      assert Stored(existing, contents[path]);
      var s := Append(existing, b, spare);
      BeyondTheEnd(path);
      Repoint(data, contents, readers, path, s, contents[path] + b);
      data, contents := data[path := s], contents[path := contents[path] + b];
    }

    /** Only bytes past the end of one file changed: no file and no reader notices. */
    twostate lemma {:induction false} BeyondTheEnd(path: string)
      requires old(Valid()) && unchanged(this) && path in data
      requires var s := data[path]; forall i | 0 <= i < s.off + s.len :: s.arr[i] == old(s.arr[i])
      requires forall p | p in data && p != path :: unchanged(data[p].arr)
      requires forall r | r in readers && r.slice.arr != data[path].arr :: unchanged(r.slice.arr)
      ensures Valid()
    {
      assert old(Stored(data[path], contents[path]));
      forall r | r in readers ensures r.Intact() {
        assert old(r.Intact()) && (r.slice.arr == data[path].arr ==> Within(r, data[path]));
        ReaderKept(r);
      }
      assert data[path].Bytes() == old(data[path].Bytes());
      forall p | p in data && p != path ensures Stored(data[p], contents[p]) {
        assert old(Stored(data[p], contents[p]));
      }
    }

    twostate lemma {:induction false} ReaderKept(r: MemoryReader)
      requires old(r.Intact())
      requires forall i | 0 <= i < r.slice.off + r.slice.len :: r.slice.arr[i] == old(r.slice.arr[i])
      ensures r.Intact()
    {
      assert r.slice.Bytes() == old(r.slice.Bytes());
    }

    /** `Reader`: an offset past the end reads nothing, a negative one panics. */
    method Reader(path: string, offset: int) returns (r: OpenResult)
      requires Valid()
      modifies this`readers
      ensures Valid()
      ensures r.NotFound? <==> path !in contents
      ensures r.Panics? <==> path in contents && offset < 0
      ensures r.Opened? ==>
        && fresh(r.reader) && readers == old(readers) + {r.reader} && r.reader.pos == 0
        && var file := contents[path];
           r.reader.snapshot == if offset <= |file| then file[offset..] else []
      ensures !r.Opened? ==> readers == old(readers)
    {
      if path !in data {
        return NotFound;
      }
      var s := data[path];
      assert Stored(s, contents[path]);
      var from := if offset > s.len then s.len else offset;
      if from < 0 {
        return Panics;
      }
      var reader := new MemoryReader(Slice(s.arr, s.off + from, s.len - from));
      assert reader.snapshot == s.Bytes()[from..];
      AddReader(data, contents, readers, path, reader);
      readers := readers + {reader};
      return Opened(reader);
    }

    /** `Delete`. */
    method Delete(path: string)
      requires Valid()
      modifies this`data, this`contents
      ensures Valid() && contents == old(contents) - {path}
    {
      Remove(data, contents, readers, path);
      data, contents := data - {path}, contents - {path};
    }

    /** `Move`: the destination is written before the source is removed, so
        moving a path onto itself removes it. */
    method Move(source: string, dest: string) returns (ok: bool)
      requires Valid()
      modifies this`data, this`contents
      ensures Valid() && (ok <==> source in old(contents))
      ensures contents == if ok then old(contents)[dest := old(contents)[source]] - {source} else old(contents)
    {
      if source !in data {
        return false;
      }
      Rename(data, contents, readers, source, dest);
      data, contents := data[dest := data[source]], contents[dest := contents[source]];
      data, contents := data - {source}, contents - {source};
      return true;
    }

    /** `Stat`. */
    method Stat(path: string) returns (size: Option<nat>)
      requires Valid()
      ensures size == if path in contents then Some(|contents[path]|) else None
    {
      if path !in data {
        return None;
      }
      assert Stored(data[path], contents[path]);
      return Some(data[path].len);
    }
  }
}
