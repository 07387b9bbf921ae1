/** `SessionConn.Read` and `Write`, `ReadSized` and `WriteSized`, over shared buffers that are re-sliced in place. */
module SessionCode {
  import opened Basics
  import opened Session

  /** A Go slice: len elements of arr from off on; its capacity reaches to the end of arr. */
  datatype Slice = Slice(arr: array<byte>, off: nat, len: nat)

  ghost predicate InRange(s: Slice)
  {
    s.off + s.len <= s.arr.Length
  }

  ghost function Get(s: Slice): (b: Bytes)
    requires InRange(s)
    reads s.arr
    ensures |b| == s.len
  {
    s.arr[s.off..s.off + s.len]
  }

  /** Re-slice in place if there is capacity, else move the contents to a new array. */
  method ExtendSlice(s: Slice, n: nat) returns (r: Slice)
    requires InRange(s)
    ensures InRange(r) && r.len == n && (r.arr == s.arr || fresh(r.arr)) && (r.arr == s.arr ==> r.off == s.off)
    ensures s.len <= n ==> Get(r)[..s.len] == Get(s)
  {
    if s.off + n <= s.arr.Length {
      return Slice(s.arr, s.off, n);
    }
    var a := new byte[n];
    forall i | 0 <= i < s.len && i < n { a[i] := s.arr[s.off + i]; }
    r := Slice(a, 0, n);
  }

  method Put(arr: array<byte>, off: nat, b: Bytes)
    requires off + |b| <= arr.Length
    modifies arr
    ensures arr[..] == old(arr[..off]) + b + old(arr[off + |b|..])
  {
    forall i | 0 <= i < |b| { arr[off + i] := b[i]; }
  }

  /** The bytes of the connection not read yet, in whatever pieces they arrive. */
  class Source {
    var chunks: seq<Bytes>

    constructor (chunks: seq<Bytes>)
      ensures this.chunks == chunks
    {
      this.chunks := chunks;
    }

    /** One Read of the connection: at most n bytes, never past the end of the piece that arrived. */
    method Read(n: nat) returns (piece: Bytes)
      requires chunks != [] && n > 0
      modifies this
      ensures |piece| <= n && Joined(old(chunks)) == piece + Joined(chunks)
      ensures |chunks| <= |old(chunks)| && (|chunks| < |old(chunks)| || |piece| == n)
    {
      var c := chunks[0];
      if |c| <= n {
        piece, chunks := c, chunks[1..];
      } else {
        ghost var rest := chunks[1..];
        piece, chunks := c[..n], [c[n..]] + chunks[1..];
        assert chunks[1..] == rest;
        assert c == c[..n] + c[n..];
      }
    }

    /** One Read towards n bytes, of which there are got. */
    method ReadMore(arr: array<byte>, off: nat, n: nat, got: nat, ghost all: Bytes) returns (more: nat)
      requires off + n <= arr.Length && got < n && chunks != []
      requires all == arr[off..off + got] + Joined(chunks)
      modifies this, arr
      ensures more <= n && all == arr[off..off + more] + Joined(chunks)
      ensures |chunks| <= |old(chunks)| && (|chunks| < |old(chunks)| || more == n)
    {
      var piece := Read(n - got);
      ghost var before := arr[off..off + got];
      Put(arr, off + got, piece);
      more := got + |piece|;
      assert arr[off..off + more] == before + piece;
    }

    /** io.ReadFull into n bytes of arr: it takes exactly the next n bytes, or fails. */
    method ReadFull(arr: array<byte>, off: nat, n: nat) returns (ok: bool)
      requires off + n <= arr.Length
      modifies this, arr
      ensures ok == (n <= |Joined(old(chunks))|)
      ensures ok ==> arr[off..off + n] == Joined(old(chunks))[..n] && Joined(chunks) == Joined(old(chunks))[n..]
    {
      ghost var all := Joined(chunks);
      var got: nat := 0;
      while got < n
        invariant got <= n && all == arr[off..off + got] + Joined(chunks)
        decreases |chunks|, n - got
      {
        if chunks == [] {
          return false;
        }
        got := ReadMore(arr, off, n, got, all);
      }
      ok := true;
    }
  }

  /** ReadSized into dst[:0]: the 4 bytes of the length, then as many bytes, over the same memory. */
  method ReadSized(dst: Slice, src: Source, max: nat) returns (r: Slice, ok: bool)
    requires InRange(dst)
    modifies src, dst.arr
    ensures InRange(r) && (r.arr == dst.arr || fresh(r.arr))
    ensures ok == Sized(Joined(old(src.chunks)), max).Some?
    ensures ok ==> (Get(r), Joined(src.chunks)) == Sized(Joined(old(src.chunks)), max).value
  {
    ghost var all := Joined(src.chunks);
    r := ExtendSlice(Slice(dst.arr, dst.off, 0), 4);
    ok := src.ReadFull(r.arr, r.off, 4);
    if !ok { return; }
    var head := r.arr[r.off..r.off + 4];
    var n := ReadBE32(head);
    assert ReadBE32(all) == n;
    if n > max { return r, false; }
    ghost var rest := Joined(src.chunks);
    assert rest == all[4..];
    r := ExtendSlice(r, n);
    ok := src.ReadFull(r.arr, r.off, n);
    if ok {
      assert rest[..n] == all[4..4 + n];
      assert rest[n..] == all[4 + n..];
    }
  }

  /** The writer under a session: what it has been given, and the error it is going to return. */
  class Sink {
    var bytes: Bytes

    constructor ()
      ensures bytes == []
    {
      bytes := [];
    }

    method Write(b: Bytes, e: Option<Error>) returns (err: Option<Error>)
      modifies this
      ensures err == e && bytes == if e.None? then old(bytes) + b else old(bytes)
    {
      err := e;
      if e.None? { bytes := bytes + b; }
    }
  }

  /** WriteSized: the length is put behind the data, in place if there is room, and sent first. */
  method WriteSized(w: Sink, buf: Slice, e1: Option<Error>, e2: Option<Error>) returns (err: Option<Error>)
    requires InRange(buf)
    modifies w, buf.arr
    ensures err == if e1.Some? then e1 else e2
    ensures err.None? ==> w.bytes == old(w.bytes) + BE32(buf.len) + old(Get(buf))
    ensures err.Some? ==> w.bytes == if e1.Some? then old(w.bytes) else old(w.bytes) + BE32(buf.len)
    ensures Get(buf) == old(Get(buf))
  {
    ghost var data := Get(buf);
    var b := ExtendSlice(buf, buf.len + 4);
    assert Get(b)[..buf.len] == data;
    Put(b.arr, b.off + b.len - 4, BE32(b.len - 4));
    assert b.arr[b.off + b.len - 4..b.off + b.len] == BE32(buf.len);
    assert b.arr[b.off..b.off + b.len - 4] == data;
    err := w.Write(b.arr[b.off + b.len - 4..b.off + b.len], e1);
    if err.None? {
      err := w.Write(b.arr[b.off..b.off + b.len - 4], e2);
    }
  }

  /** The counter in the first 8 bytes of the nonce, zeros in the others. */
  method PutNonce(arr: array<byte>, off: nat, a: Suite, i: nat)
    requires a.nonceSize >= 8 && off + a.nonceSize <= arr.Length
    modifies arr
    ensures arr[off..off + a.nonceSize] == Nonce(a, i) && arr[..off] == old(arr[..off])
  {
    Put(arr, off, BE64(i));
    Put(arr, off + 8, Zeros(a.nonceSize - 8));
  }

  /** suite.Seal(wb[k:k], wb[:k], b, nil): the ciphertext goes behind the nonce, in place. */
  method Seal(a: Suite, wb: Slice, ghost i: nat, b: Bytes) returns (r: Slice)
    requires Lawful(a) && InRange(wb) && wb.len == a.nonceSize + |b| + a.overhead
    requires wb.arr[wb.off..wb.off + a.nonceSize] == Nonce(a, i)
    modifies wb.arr
    ensures InRange(r) && r.arr == wb.arr && r.off == wb.off + a.nonceSize && Get(r) == a.seal(Nonce(a, i), b)
    ensures r.len == |b| + a.overhead
  {
    var c := a.seal(wb.arr[wb.off..wb.off + a.nonceSize], b);
    SealedOpens(a, Nonce(a, i), b);
    Put(wb.arr, wb.off + a.nonceSize, c);
    r := Slice(wb.arr, wb.off + a.nonceSize, |c|);
  }

  /** The nonce behind the ciphertext rb, then suite.Open(rb[:0], nonce, ciphertext, nil), in place. */
  method Open(a: Suite, rb: Slice, i: nat) returns (r: Slice, ok: bool)
    requires Lawful(a) && InRange(rb)
    modifies rb.arr
    ensures InRange(r) && (r.arr == rb.arr || fresh(r.arr))
    ensures ok == a.open(Nonce(a, i), old(Get(rb))).Some?
    ensures ok ==> Get(r) == a.open(Nonce(a, i), old(Get(rb))).value
  {
    ghost var c0 := Get(rb);
    r := ExtendSlice(rb, rb.len + a.nonceSize);
    assert Get(r)[..rb.len] == c0;
    ghost var front := r.arr[..r.off + rb.len];
    assert front[r.off..] == c0;
    PutNonce(r.arr, r.off + rb.len, a, i);
    var nonce := r.arr[r.off + rb.len..r.off + r.len];
    var c := r.arr[r.off..r.off + rb.len];
    assert c == r.arr[..r.off + rb.len][r.off..];
    var p := a.open(nonce, c);
    assert OpensWell(a, nonce, c);
    ok := p.Some?;
    if ok {
      Put(r.arr, r.off, p.value);
      r := Slice(r.arr, r.off, |p.value|);
    }
  }

  class SessionConn {
    const suite: Suite
    const src: Source
    const sink: Sink
    var rb: Slice
    var wb: Slice
    var wn: nat
    var rn: nat

    ghost predicate Valid()
      reads this
    {
      Lawful(suite) && InRange(rb) && InRange(wb) && rb.arr != wb.arr && wn < TWO64 && rn < TWO64
    }

    constructor (suite: Suite, src: Source, sink: Sink)
      requires Lawful(suite)
      ensures Valid() && fresh(rb.arr) && fresh(wb.arr) && wn == 0 && rn == 0
      ensures this.suite == suite && this.src == src && this.sink == sink
    {
      this.suite, this.src, this.sink := suite, src, sink;
      var r, w := new byte[0], new byte[0];
      rb, wb := Slice(r, 0, 0), Slice(w, 0, 0);
      wn, rn := 0, 0;
    }

    /** Write: nonce and ciphertext share wb, which slides forward past the nonce. */
    method Write(b: Bytes, e1: Option<Error>, e2: Option<Error>) returns (n: nat, err: Option<Error>)
      requires Valid()
      modifies this`wb, this`wn, wb.arr, sink
      ensures Valid() && (wb.arr == old(wb.arr) || fresh(wb.arr))
      ensures wn == (old(wn) + 1) % TWO64 && err == if e1.Some? then e1 else e2
      ensures err.None? ==> sink.bytes == old(sink.bytes) + Frame(suite, old(wn), b) && n == |b| + suite.overhead
    {
      wb := ExtendSlice(wb, suite.nonceSize + |b| + suite.overhead);
      PutNonce(wb.arr, wb.off, suite, wn);
      wb := Seal(suite, wb, wn, b);
      wn := (wn + 1) % TWO64;
      err := WriteSized(sink, wb, e1, e2);
      n := if err.None? then wb.len else 0;
    }

    /**
     Read into a buffer of length len and capacity max: the nonce is put behind
     the ciphertext, and the plaintext over it.  The plaintext is cut to len.
     */
    method Read(len: nat, max: nat) returns (data: Bytes, ok: bool)
      requires Valid() && len <= max
      modifies this`rb, this`rn, rb.arr, src
      ensures Valid() && (rb.arr == old(rb.arr) || fresh(rb.arr))
      ensures var r := Receive(suite, old(rn), Joined(old(src.chunks)), max);
        ok == r.Received? &&
        (r.Received? ==> data == r.p[..if |r.p| <= len then |r.p| else len]
                         && Joined(src.chunks) == r.rest)
      ensures rn == if Sized(Joined(old(src.chunks)), max).Some? then (old(rn) + 1) % TWO64 else old(rn)
    {
      var dst: Slice;
      dst, ok := ReadSized(rb, src, max);
      data := [];
      if ok {
        rb, ok := Open(suite, dst, rn);
        rn := (rn + 1) % TWO64;
        if ok {
          var m := if rb.len <= len then rb.len else len;
          data := rb.arr[rb.off..rb.off + m];
          assert data == Get(rb)[..m];
          return;
        }
      }
      var none := new byte[0];
      rb := Slice(none, 0, 0);
    }
  }
}
