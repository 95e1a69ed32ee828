/** The ring buffers of a connection: a fixed array with `head` (the C field `in`), `tail`
    (`out`) and `count`. */
module TcpBuf {
  import opened Common

  /** Index `x` of a ring of `size` cells, for at most one turn past the end. */
  function Wrap(x: nat, size: nat): nat {
    if x >= size then x - size else x
  }

  /** The `n` cells of the ring `s` that start at `tail`. */
  function Turn(s: seq<Byte>, tail: nat, n: nat): (r: seq<Byte>)
    requires tail < |s| && n <= |s|
    ensures |r| == n
    ensures forall i {:trigger r[i]} :: 0 <= i < n ==> r[i] == s[Wrap(tail + i, |s|)]
  {
    if tail + n <= |s| then s[tail..tail + n] else s[tail..] + s[..tail + n - |s|]
  }

  /** Overwriting the cells right behind the turn appends to it. */
  lemma TurnAppend(s: seq<Byte>, s': seq<Byte>, tail: nat, n: nat, run: seq<Byte>)
    requires tail < |s| == |s'| && n + |run| <= |s|
    requires var h := Wrap(tail + n, |s|); h + |run| <= |s| && s' == s[..h] + run + s[h + |run|..]
    ensures Turn(s', tail, n + |run|) == Turn(s, tail, n) + run
  {
    hide Turn;
    var r := Turn(s', tail, n + |run|);
    forall i | 0 <= i < n + |run| ensures r[i] == (Turn(s, tail, n) + run)[i] {
    }
  }

  lemma TurnDrop(s: seq<Byte>, tail: nat, n: nat, k: nat)
    requires tail < |s| && k <= n <= |s|
    ensures Turn(s, Wrap(tail + k, |s|), n - k) == Turn(s, tail, n)[k..]
  {
    hide Turn;
  }

  /** A run of cells that does not cross the end of the array. */
  lemma TurnRun(s: seq<Byte>, tail: nat, n: nat, i: nat, k: nat)
    requires tail < |s| && i + k <= n <= |s| && i < n && Wrap(tail + i, |s|) + k <= |s|
    ensures var a := Wrap(tail + i, |s|); s[a..a + k] == Turn(s, tail, n)[i..i + k]
  {
    hide Turn;
  }

  lemma Glue(s: seq<Byte>, a: nat, b: nat, c: nat)
    requires a <= b <= c <= |s|
    ensures s[a..b] + s[b..c] == s[a..c]
  {
  }

  class Ring {
    const data: array<Byte>
    var head: nat
    var tail: nat
    var count: nat

    ghost predicate Valid()
      reads this
    {
      && tail < data.Length && count <= data.Length
      && head == Wrap(tail + count, data.Length)
    }

    /** The buffered bytes, oldest first. */
    ghost function Contents(): (s: seq<Byte>)
      requires Valid()
      reads this, data
      ensures |s| == count
    {
      Turn(data[..], tail, count)
    }

    function FreeCnt(): nat
      requires count <= data.Length
      reads this
    {
      data.Length - count
    }

    constructor (size: nat)
      requires size > 0
      ensures Valid() && fresh(data) && data.Length == size && Contents() == []
    {
      data := new Byte[size](_ => 0);
      head, tail, count := 0, 0, 0;
    }

    /** tcp_buf_init */
    method Clear()
      requires data.Length > 0
      modifies this
      ensures Valid() && Contents() == []
    {
      head, tail, count := 0, 0, 0;
    }

    method PutByte(b: Byte)
      requires Valid() && FreeCnt() > 0
      modifies this, data
      ensures Valid() && count == old(count) + 1 && Contents() == old(Contents()) + [b]
    {
      hide Turn;
      ghost var s := data[..];
      data[head] := b;
      TurnAppend(s, data[..], tail, count, [b]);
      head := head + 1;
      if head >= data.Length { head := 0; }
      count := count + 1;
    }

    /** tcp_buf_write_send: byte by byte with wrap-around. */
    method WriteSend(bytes: seq<Byte>)
      requires Valid() && |bytes| <= FreeCnt()
      modifies this, data
      ensures Valid() && Contents() == old(Contents()) + bytes
    {
      hide Turn;
      var k := 0;
      while k < |bytes|
        invariant k <= |bytes| && Valid() && |bytes| - k <= FreeCnt()
        invariant Contents() == old(Contents()) + bytes[..k]
      {
        PutByte(bytes[k]);
        assert bytes[..k] + [bytes[k]] == bytes[..k + 1];
        k := k + 1;
      }
    }

    /** tcp_buf_read_send: at most two runs copied to the packet, nothing removed. */
    method ReadSend(offset: nat, len: nat) returns (out: seq<Byte>)
      requires Valid() && offset <= count
      ensures out == Contents()[offset..offset + Min(len, count - offset)]
    {
      hide Turn;
      var total := Min(len, count - offset);
      ghost var c, pos := Contents(), offset;
      var n := total;
      var start := tail + offset;
      if start >= data.Length { start := start - data.Length; }
      out := [];
      while n > 0
        invariant 0 <= n <= total && pos == offset + total - n
        invariant n > 0 ==> start == Wrap(tail + pos, data.Length)
        invariant out == c[offset..pos]
      {
        var copy := Min(n, data.Length - start);
        var run := data[start..start + copy];
        RunIs(c, pos, start, copy);
        Glue(c, offset, pos, pos + copy);
        out := out + run;
        pos := pos + copy;
        start := start + copy;
        if start >= data.Length { start := start - data.Length; }
        n := n - copy;
      }
    }

    lemma RunIs(c: seq<Byte>, pos: nat, start: nat, k: nat)
      requires Valid() && c == Contents() && pos < count && pos + k <= count
      requires start == Wrap(tail + pos, data.Length) && start + k <= data.Length
      ensures data[start..start + k] == c[pos..pos + k]
    {
      TurnRun(data[..], tail, count, pos, k);
      assert data[..][start..start + k] == data[start..start + k];
    }

    /** tcp_buf_remove */
    method Remove(cnt: nat) returns (n: nat)
      requires Valid()
      modifies this
      ensures Valid() && n == Min(cnt, old(count))
      ensures Contents() == old(Contents())[n..]
    {
      hide Turn;
      n := Min(cnt, count);
      TurnDrop(data[..], tail, count, n);
      tail := tail + n;
      if tail >= data.Length { tail := tail - data.Length; }
      count := count - n;
    }

    /** `start` is the cell `offset` behind the contents. */
    ghost predicate Behind(start: nat, offset: nat)
      reads this
    {
      && tail < data.Length && count <= data.Length && start < data.Length
      && (var x := tail + count + offset; start == x || start == x - data.Length || start == x - 2 * data.Length)
    }

    /** tcp_buf_write_rcv: as much of the packet as fits behind `offset` free cells, in at most two
        runs. The skipped cells are not counted, so the ring stays in order exactly for offset 0. */
    method WriteRcv(offset: nat, src: seq<Byte>) returns (total: int)
      requires Valid() && offset < data.Length
      modifies this, data
      ensures total == Min(|src|, data.Length - old(count) - offset) && count == old(count) + Max(total, 0)
      ensures Valid() <==> offset == 0
      ensures offset == 0 ==> Contents() == old(Contents()) + src[..total]
    {
      hide Turn;
      var start: nat := head + offset;
      if start >= data.Length { start := start - data.Length; }
      total := Min(|src|, FreeCnt() - offset);
      var size := total;
      while size > 0
        invariant (if total > 0 then 0 <= size <= total else size == total) && size <= data.Length - count - offset
        invariant Behind(start, offset) && tail == old(tail) && count == old(count) + Max(total, 0) - Max(size, 0)
        invariant offset == 0 ==> Turn(data[..], tail, count) == old(Contents()) + src[..total - size]
      {
        var copy := Min(size, data.Length - start);
        var done := total - size;
        assert src[..done] + src[done..done + copy] == src[..done + copy];
        start := WriteRun(start, offset, src[done..done + copy]);
        size := size - copy;
      }
      head := start;
    }

    /** One memcpy into the array at `start`. Right behind the contents it extends them. */
    method WriteRun(start: nat, offset: nat, run: seq<Byte>) returns (next: nat)
      requires Behind(start, offset) && start + |run| <= data.Length && count + |run| + offset <= data.Length
      modifies this`count, data
      ensures count == old(count) + |run| && Behind(next, offset)
      ensures offset == 0 ==> Turn(data[..], tail, count) == old(Turn(data[..], tail, count)) + run
    {
      hide Turn;
      ghost var s := data[..];
      forall i | 0 <= i < |run| { data[start + i] := run[i]; }
      if offset == 0 && run != [] { TurnAppend(s, data[..], tail, count, run); }
      assert run == [] ==> data[..] == s;
      count := count + |run|;
      next := start + |run|;
      if next >= data.Length { next := next - data.Length; }
    }

    /** tcp_buf_read_rcv: byte by byte out of the buffer. */
    method ReadRcv(size: nat) returns (out: seq<Byte>)
      requires Valid()
      modifies this
      ensures Valid() && |out| == Min(size, old(count))
      ensures old(Contents()) == out + Contents()
    {
      hide Turn;
      var total := Min(size, count);
      ghost var c := Contents();
      out := [];
      while |out| < total
        invariant |out| <= total <= |c| && Valid() && count == |c| - |out|
        invariant out == c[..|out|] && Contents() == c[|out|..]
      {
        ghost var rest := Contents();
        TurnDrop(data[..], tail, count, 1);
        assert data[tail] == rest[0];
        assert rest[1..] == c[|out| + 1..];
        out := out + [data[tail]];
        tail := tail + 1;
        if tail >= data.Length { tail := 0; }
        count := count - 1;
      }
    }
  }
}
