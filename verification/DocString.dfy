/** The string class of the test framework: short contents live in the object itself, whose last
    byte tells where they are and how long they are; long ones live on the heap. */
module DocString {

  newtype byte = b: int | 0 <= b < 256

  const LEN := 24
  const LAST := 23
  const ON_HEAP: byte := 128
  const UINT_RANGE := 0x1_0000_0000
  const NPOS := 0xFFFF_FFFF

  /** The size of the pointer, size and capacity that share the object's bytes with the buffer. */
  const VIEW_SIZE := 16

  /** Bytes `[at..at + |src|)` are replaced. */
  function Spliced(dst: seq<byte>, at: nat, src: seq<byte>): seq<byte>
    requires at + |src| <= |dst|
  {
    dst[..at] + src + dst[at + |src|..]
  }

  method Memcpy(dst: array<byte>, at: nat, src: seq<byte>)
    requires at + |src| <= dst.Length
    modifies dst
    ensures dst[..] == Spliced(old(dst[..]), at, src)
  {
    var k := 0;
    while k < |src|
      invariant 0 <= k <= |src|
      invariant dst[..at] == old(dst[..at]) && dst[at..at + k] == src[..k] && dst[at + k..] == old(dst[at + k..])
    {
      dst[at + k] := src[k];
      k := k + 1;
    }
    assert dst[..] == dst[..at] + dst[at..at + |src|] + dst[at + |src|..];
  }

  /** Bytes and a final NUL copied to just after the first `n`. */
  lemma Appended(dst: seq<byte>, n: nat, more: seq<byte>)
    requires more != [] && n + |more| <= |dst|
    ensures var r := Spliced(dst, n, more); var m := n + |more| - 1;
            && r[..m] == dst[..n] + more[..|more| - 1] && r[m] == more[|more| - 1]
            && forall i :: n + |more| <= i < |dst| ==> r[i] == dst[i]
  {
  }

  lemma Window(s: seq<byte>, n: nat, pos: nat, cnt: nat)
    requires pos + cnt <= n <= |s|
    ensures s[..n][pos..][..cnt] == s[pos..pos + cnt] == s[..n][pos..pos + cnt]
  {
  }

  class DocString {
    const buf: array<byte>
    var ptr: array?<byte>
    var dataSize: nat
    var dataCapacity: nat

    ghost function Repr(): set<object>
      reads this
    {
      {this, buf} + (if ptr == null then {} else {ptr})
    }

    predicate IsOnStack()
      requires buf.Length == LEN
      reads this, buf
    {
      buf[LAST] < 128
    }

    /** The flag byte encodes where the contents are and, on the stack, what is left of the buffer
        after them; the contents are followed by a NUL; the heap block is larger than they are. */
    ghost predicate Valid()
      reads this, buf, ptr
    {
      && buf.Length == LEN && ptr != buf
      && if IsOnStack() then
           && ptr == null && buf[LAST] as int <= LAST && buf[LAST - buf[LAST] as int] == 0
         else
           && buf[LAST] == ON_HEAP && ptr != null
           && ptr.Length == dataCapacity && dataSize < dataCapacity < UINT_RANGE && ptr[dataSize] == 0
    }

    function Size(): (n: nat)
      requires Valid()
      reads this, buf, ptr
      ensures n == |Contents()|
    {
      if IsOnStack() then LAST - (buf[LAST] as int % 32) else dataSize
    }

    function Capacity(): (n: nat)
      requires Valid()
      reads this, buf, ptr
      ensures |Contents()| < n
    {
      if IsOnStack() then LEN else dataCapacity
    }

    ghost function Contents(): seq<byte>
      requires Valid()
      reads this, buf, ptr
    {
      if IsOnStack() then buf[..LAST - buf[LAST] as int] else ptr[..dataSize]
    }

    /** What `c_str` points to. */
    function Chars(): (a: array<byte>)
      requires Valid()
      reads this, buf, ptr
      ensures a in Repr() && |Contents()| < a.Length && a[..|Contents()|] == Contents() && a[|Contents()|] == 0
    {
      if IsOnStack() then buf else ptr
    }

    // Writing the pointer, the size and the capacity overwrites the buffer's first bytes.
    method SetOnHeap(block: array<byte>, size: nat, capacity: nat)
      requires buf.Length == LEN && block != buf
      modifies this`ptr, this`dataSize, this`dataCapacity, buf
      ensures ptr == block && dataSize == size && dataCapacity == capacity && buf[LAST] == ON_HEAP
    {
      buf[LAST] := ON_HEAP;
      ptr, dataSize, dataCapacity := block, size, capacity;
      var k := 0;
      while k < VIEW_SIZE
        invariant 0 <= k <= VIEW_SIZE && buf[LAST] == ON_HEAP
        invariant ptr == block && dataSize == size && dataCapacity == capacity
      {
        buf[k] := 0xAA;
        k := k + 1;
      }
    }

    method SetLast(left: nat)
      requires buf.Length == LEN && left <= LAST
      modifies this`ptr, buf
      ensures ptr == null && buf[..] == Spliced(old(buf[..]), LAST, [left as byte])
    {
      buf[LAST] := left as byte;
      ptr := null;
    }

    constructor ()
      ensures Valid() && Contents() == [] && fresh(Repr())
    {
      buf := new byte[LEN];
      ptr, dataSize, dataCapacity := null, 0, 0;
      new;
      buf[0] := 0;
      SetLast(LAST);
    }

    constructor FromChars(src: seq<byte>)
      requires |src| + 1 < UINT_RANGE
      ensures Valid() && Contents() == src && fresh(Repr())
    {
      buf := new byte[LEN];
      ptr, dataSize, dataCapacity := null, 0, 0;
      new;
      Store(src);
    }

    /** `allocate`, then the bytes. */
    method Store(src: seq<byte>)
      requires buf.Length == LEN && |src| + 1 < UINT_RANGE
      modifies this, buf
      ensures Valid() && Contents() == src && fresh(Repr() - {this, buf})
    {
      if |src| <= LAST {
        buf[|src|] := 0;
        SetLast(LAST - |src|);
        Memcpy(buf, 0, src);
        assert buf[..][..|src|] == src;
        assert buf[|src|] == buf[..][|src|];
      } else {
        var block := new byte[|src| + 1];
        SetOnHeap(block, |src|, |src| + 1);
        block[|src|] := 0;
        Memcpy(block, 0, src);
        assert block[..][..|src|] == src;
      }
    }

    method Copy(other: DocString)
      requires buf.Length == LEN && other.Valid() && this != other && {this, buf} !! other.Repr()
      requires other.Size() + 1 < UINT_RANGE
      modifies this, buf
      ensures Valid() && Contents() == other.Contents() && fresh(Repr() - {this, buf})
      ensures other.Valid() && other.Contents() == old(other.Contents())
    {
      if other.IsOnStack() {
        Memcpy(buf, 0, other.buf[..]);
        ptr := null;
        assert buf[..] == other.buf[..];
        assert buf[LAST] == other.buf[..][LAST] && forall i :: 0 <= i < LEN ==> buf[i] == other.buf[..][i];
      } else {
        Store(other.ptr[..other.dataSize]);
      }
    }

    constructor CopyOf(other: DocString)
      requires other.Valid() && other.Size() + 1 < UINT_RANGE
      ensures Valid() && Contents() == other.Contents() && fresh(Repr())
      ensures other.Valid() && other.Contents() == old(other.Contents())
    {
      buf := new byte[LEN];
      ptr, dataSize, dataCapacity := null, 0, 0;
      new;
      Copy(other);
    }

    /** Copy assignment, also to itself. */
    method Assign(other: DocString)
      requires Valid() && other.Valid() && (this != other ==> Repr() !! other.Repr()) && other.Size() + 1 < UINT_RANGE
      modifies this, buf
      ensures Valid() && Contents() == old(other.Contents()) && fresh(Repr() - old(Repr()))
      ensures other.Valid() && other.Contents() == old(other.Contents())
    {
      if this != other {
        ptr := null;
        Copy(other);
      }
    }

    /** Takes over what the other one has, and leaves it empty. */
    method MoveFrom(other: DocString)
      requires Valid() && other.Valid() && (this != other ==> Repr() !! other.Repr())
      modifies Repr(), other.Repr()
      ensures Valid() && Contents() == old(other.Contents())
      ensures Repr() <= old(Repr() + other.Repr())
      ensures this != other ==> other.Valid() && other.Contents() == [] && Repr() !! other.Repr()
    {
      if this != other {
        Memcpy(buf, 0, other.buf[..]);
        ptr, dataSize, dataCapacity := other.ptr, other.dataSize, other.dataCapacity;
        assert forall i :: 0 <= i < LEN ==> buf[i] == other.buf[..][i];
        other.buf[0] := 0;
        other.SetLast(LAST);
      }
    }

    /** The rest of an append: the old contents and the new ones go into a new heap block, and
        only then is the old place given up. */
    method Grow(capacity: nat, more: seq<byte>)
      requires Valid() && more != [] && more[|more| - 1] == 0 && Size() + |more| <= capacity < UINT_RANGE
      modifies this, buf
      ensures Valid() && !IsOnStack() && Contents() == old(Contents()) + more[..|more| - 1] && dataCapacity == capacity
      ensures fresh(Repr() - {this, buf})
    {
      var n, chars := Size(), Chars();
      ghost var before := Contents();
      var temp := new byte[capacity];
      Memcpy(temp, 0, chars[..n]);
      assert temp[..][..n] == before;
      Appended(temp[..], n, more);
      SetOnHeap(temp, n + |more| - 1, capacity);
      Memcpy(temp, n, more);
      assert temp[..][..dataSize] == before + more[..|more| - 1] && temp[..][dataSize] == 0;
    }

    method AppendOnStack(more: seq<byte>)
      requires Valid() && IsOnStack() && more != [] && more[|more| - 1] == 0 && Size() + |more| <= LEN
      modifies this, buf
      ensures Valid() && IsOnStack() && Contents() == old(Contents()) + more[..|more| - 1]
    {
      var n := Size();
      var total := n + |more| - 1;
      ghost var before := Contents();
      Appended(buf[..], n, more);
      Memcpy(buf, n, more);
      ghost var filled := buf[..];
      assert filled[..total] == before + more[..|more| - 1] && filled[total] == 0;
      SetLast(LAST - total);
      assert buf[..][..total] == filled[..total] && buf[total] == buf[..][total];
    }

    method AppendInBlock(more: seq<byte>)
      requires Valid() && !IsOnStack() && more != [] && more[|more| - 1] == 0 && dataSize + |more| <= dataCapacity
      modifies this`dataSize, ptr
      ensures Valid() && !IsOnStack() && Contents() == old(Contents()) + more[..|more| - 1]
    {
      var n := dataSize;
      ghost var before := Contents();
      Appended(ptr[..], n, more);
      dataSize := n + |more| - 1;
      Memcpy(ptr, n, more);
      assert ptr[..][..dataSize] == before + more[..|more| - 1] && ptr[..][dataSize] == 0;
    }

    /** An outgrown heap block is replaced by one of twice its capacity, or by one that is just
        large enough when that is not enough or does not fit in 32 bits. */
    method AppendChars(more: seq<byte>)
      requires Valid() && more != [] && more[|more| - 1] == 0 && Size() + |more| < UINT_RANGE
      modifies Repr()
      ensures Valid() && Contents() == old(Contents()) + more[..|more| - 1] && fresh(Repr() - old(Repr()))
      ensures IsOnStack() <==> old(IsOnStack()) && |Contents()| < LEN
      ensures !old(IsOnStack()) ==>
                dataCapacity == if old(dataCapacity) > |Contents()| then old(dataCapacity)
                                else if (old(dataCapacity) * 2) % UINT_RANGE > |Contents()|
                                then (old(dataCapacity) * 2) % UINT_RANGE
                                else |Contents()| + 1
    {
      var total := Size() + |more| - 1;
      if IsOnStack() {
        if total < LEN {
          AppendOnStack(more);
        } else {
          Grow(total + 1, more);
        }
      } else if dataCapacity > total {
        AppendInBlock(more);
      } else {
        var capacity := (dataCapacity * 2) % UINT_RANGE;
        if capacity <= total {
          capacity := total + 1;
        }
        Grow(capacity, more);
      }
    }

    /** Appends another string. */
    method Append(other: DocString)
      requires Valid() && other.Valid() && this != other && Repr() !! other.Repr()
      requires Size() + other.Size() + 1 < UINT_RANGE
      modifies Repr()
      ensures Valid() && Contents() == old(Contents()) + other.Contents() && fresh(Repr() - old(Repr()))
      ensures other.Valid() && other.Contents() == old(other.Contents())
      ensures IsOnStack() <==> old(IsOnStack()) && |Contents()| < LEN
      ensures !old(IsOnStack()) ==>
                dataCapacity == if old(dataCapacity) > |Contents()| then old(dataCapacity)
                                else if (old(dataCapacity) * 2) % UINT_RANGE > |Contents()|
                                then (old(dataCapacity) * 2) % UINT_RANGE
                                else |Contents()| + 1
    {
      var otherSize, chars := other.Size(), other.Chars();
      var more := chars[..otherSize + 1];
      assert more[..otherSize] == other.Contents() && more[otherSize] == 0;
      AppendChars(more);
    }

    /** `substr` on a string about to be given up: in place, wherever the contents are. */
    method Shrink(pos: nat, count: nat)
      requires Valid() && pos <= Size()
      modifies Repr()
      ensures Valid() && Contents() == old(Contents()[pos..][..if count < Size() - pos then count else Size() - pos])
      ensures Repr() <= old(Repr()) && IsOnStack() == old(IsOnStack())
    {
      var cnt := if count < Size() - pos then count else Size() - pos;
      ghost var wanted := Contents()[pos..][..cnt];
      Window(Contents(), Size(), pos, cnt);
      assert Contents()[..Size()] == Contents();
      Slide(pos, cnt);
      SetSize(cnt);
    }

    /** Moves bytes to the front. */
    method Slide(pos: nat, cnt: nat)
      requires Valid() && pos + cnt <= Size()
      modifies Repr()
      ensures Valid() && Repr() == old(Repr()) && IsOnStack() == old(IsOnStack()) && Size() == old(Size())
      ensures Contents()[..cnt] == old(Contents()[pos..pos + cnt])
    {
      var chars, size := Chars(), Size();
      ghost var was := chars[..];
      ghost var src := chars[pos..pos + cnt];
      Window(was, size, pos, cnt);
      assert was[..size] == Contents() && was[pos..pos + cnt] == src;
      Memcpy(chars, 0, chars[pos..pos + cnt]);
      assert chars[..][..cnt] == src;
      assert forall k :: cnt <= k < chars.Length ==> chars[..][k] == was[k];
    }

    method SetSize(n: nat)
      requires Valid() && n <= Size()
      modifies Repr()
      ensures Valid() && Contents() == old(Contents()[..n]) && Repr() <= old(Repr()) && IsOnStack() == old(IsOnStack())
    {
      ghost var wanted := Contents()[..n];
      if IsOnStack() {
        assert buf[..][..n] == wanted;
        buf[n] := 0;
        assert buf[..][..n] == wanted;
        SetLast(LAST - n);
        assert buf[..][..n] == wanted && buf[n] == buf[..][n];
      } else {
        ptr[n] := 0;
        dataSize := n;
      }
    }

    /** `substr` on any other string: a new one. */
    method Substr(pos: nat, count: nat) returns (r: DocString)
      requires Valid() && pos <= Size()
      ensures r.Valid() && fresh(r.Repr())
      ensures r.Contents() == Contents()[pos..][..if count < Size() - pos then count else Size() - pos]
    {
      var cnt := if count < Size() - pos then count else Size() - pos;
      var chars := Chars();
      Window(chars[..], Size(), pos, cnt);
      assert chars[..][pos..pos + cnt] == chars[pos..pos + cnt] && chars[..][..Size()] == chars[..Size()];
      r := new DocString.FromChars(chars[pos..pos + cnt]);
    }

    /** The first occurrence from a position on, or NPOS. */
    method Find(c: byte, pos: nat) returns (i: nat)
      requires Valid()
      ensures i == NPOS || (pos <= i < Size() && Contents()[i] == c && c !in Contents()[pos..i])
      ensures i == NPOS ==> Size() <= pos || c !in Contents()[pos..]
    {
      var chars, end := Chars(), Size();
      i := pos;
      while i < end && chars[i] != c
        invariant pos <= i && (i <= end || i == pos)
        invariant pos <= end ==> c !in Contents()[pos..i]
      {
        i := i + 1;
      }
      if !(i < end) {
        i := NPOS;
      }
    }
  }
}
