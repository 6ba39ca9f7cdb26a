/** NBT::NBTReader: the streaming reader object. Its state is the one the
    source declares — the cursor into the input, the stream's failbit,
    ByteCount, and the twin stack held as the parallel arrays CLA (tag type)
    and Size (remaining count) indexed by `top`, with top == -1 for the empty
    stack. Every public operation is proved to move the object from State()
    to the state the matching function of ReaderSpec prescribes. */
module NBTReader {
  import opened Wire
  import opened ReaderSpec

  class Reader {
    /** The whole input file; `pos` is the stream's read position. */
    const data: seq<byte>
    var pos: nat
    var failed: bool
    var byteCount: nat
    var top: int
    const cla: array<byte>
    const size: array<int>

    /** The twin stack is well formed: both arrays have TwinStackSize slots
        and top indexes one of them, or is -1. */
    ghost predicate StackShape()
      reads this`top
    {
      cla.Length == TwinStackSize && size.Length == TwinStackSize && -1 <= top < TwinStackSize
    }

    /** The object invariant: a well-formed stack, a cursor inside the input
        and a ByteCount equal to the cursor unless the stream has failed. */
    ghost predicate Valid()
      reads this
    {
      StackShape() && pos <= |data| && (failed || byteCount == pos)
    }

    /** The frames CLA[0..top] / Size[0..top], bottom first. */
    ghost function Stack(): (s: seq<Frame>)
      reads this`top, cla, size
      requires StackShape()
      ensures |s| == top + 1
      ensures forall i :: 0 <= i <= top ==> s[i] == Frame(cla[i], size[i])
    {
      seq(top + 1, i requires 0 <= i < cla.Length && i < size.Length reads cla, size => Frame(cla[i], size[i]))
    }

    ghost function State(): RState
      reads this, cla, size
      requires Valid()
    {
      RState(pos, failed, byteCount, Stack())
    }

    /** A reader over `input` before the root header is read. */
    constructor (input: seq<byte>)
      ensures Valid() && data == input && State() == RState(0, false, 0, [])
      ensures fresh(cla) && fresh(size)
    {
      data := input;
      pos, failed, byteCount := 0, false, 0;
      cla := new byte[TwinStackSize];
      size := new int[TwinStackSize];
      top := -1;
    }

    /** NBTReader(path): reads the 3-byte root header, which must be
        0A 00 00, and pushes the root compound's frame; otherwise throws. */
    static method Open(input: seq<byte>) returns (r: Result<Reader>)
      ensures r.Ok? <==> OpenStep(input).Ok?
      ensures r.Err? ==> r.error == OpenStep(input).error
      ensures r.Ok? ==> fresh(r.value) && fresh(r.value.cla) && fresh(r.value.size)
                        && r.value.Valid() && r.value.data == input
                        && r.value.State() == OpenStep(input).value
    {
      var rd := new Reader(input);
      var header := rd.ReadValue(3);
      if header.Err? {
        return Err(header.error);
      }
      if header.value != [TAG_COMPOUND, 0, 0] {
        return Err(BadRoot);
      }
      rd.Push(TAG_END, 0);
      assert rd.Stack() == [RootFrame];
      return Ok(rd);
    }

    // -------------------------------------------------------------------------
    // The twin stack

    method IsEmpty() returns (b: bool)
      requires StackShape()
      ensures b <==> Stack() == []
    {
      b := top == -1;
    }

    /** isFull, with the bound one lower than the source's `top >= 128`, so
        that a push never writes past the arrays (see
        ReaderProps.PushOverrunsAsWritten). */
    method IsFull() returns (b: bool)
      requires StackShape()
      ensures b <==> |Stack()| >= TwinStackSize
    {
      b := top >= TwinStackSize - 1;
    }

    /** isListFinished; on the empty stack, where the source reads Size[-1],
        the answer is true (see ReaderProps.ListFinishedSlotAsWritten and
        ReaderProps.ExitRootReadsBelowStackAsWritten). */
    method IsListFinished() returns (b: bool)
      requires StackShape()
      ensures b <==> ListFinished(Stack())
    {
      b := top == -1 || size[top] <= 0;
    }

    /** readType / CurrentType: the top frame's tag; End (compound context)
        on the empty stack, where the source reads CLA[-1]. */
    method CurrentType() returns (t: byte)
      requires StackShape()
      ensures |Stack()| > 0 ==> t == Stack()[|Stack()| - 1].tag
      ensures |Stack()| == 0 ==> t == TAG_END
    {
      t := if top == -1 then TAG_END else cla[top];
    }

    method IsInCompound() returns (b: bool)
      requires StackShape()
      ensures b <==> InCompound(Stack())
    {
      var empty := IsEmpty();
      if empty {
        b := true;
      } else {
        var t := CurrentType();
        b := t == TAG_END;
      }
    }

    method IsInList() returns (b: bool)
      requires StackShape()
      ensures b <==> InList(Stack())
    {
      var c := IsInCompound();
      b := !c;
    }

    /** typeMatch: the top frame's type is `t` (only asked in list context). */
    method TypeMatch(t: byte) returns (b: bool)
      requires StackShape() && top >= 0
      ensures b <==> Stack()[|Stack()| - 1].tag == t
    {
      var c := CurrentType();
      b := c == t;
    }

    method Pop()
      requires StackShape()
      modifies this`top
      ensures StackShape() && Stack() == Popped(old(Stack()))
    {
      var empty := IsEmpty();
      if !empty {
        top := top - 1;
      }
    }

    method Push(t: byte, n: int)
      requires StackShape()
      modifies this`top, cla, size
      ensures StackShape() && Stack() == Pushed(old(Stack()), Frame(t, n))
    {
      var full := IsFull();
      if !full {
        top := top + 1;
        cla[top] := t;
        size[top] := n;
        assert Stack() == old(Stack()) + [Frame(t, n)];
      }
    }

    /** elementRead: counts one element of the current list and pops the
        lists this finishes. */
    method ElementRead()
      requires StackShape()
      modifies this`top, size
      ensures StackShape() && Stack() == AfterElementRead(old(Stack()))
      decreases top + 1, 1
    {
      ghost var s0 := Stack();
      var inList := IsInList();
      var finished := IsListFinished();
      if inList && !finished {
        size[top] := size[top] - 1;
        assert Stack() == DecrementTop(s0) by {
          var s1 := Stack();
          var d := DecrementTop(s0);
          assert |s1| == |d|;
          forall i | 0 <= i < |s1| ensures s1[i] == d[i] {
            if i < top {
              assert d[i] == d[..|d| - 1][i] == s0[..|s0| - 1][i];
            }
          }
        }
      }
      finished := IsListFinished();
      ghost var s1 := Stack();
      assert s1 == if InList(s0) && !ListFinished(s0) then DecrementTop(s0) else s0;
      if finished {
        EndList();
      }
    }

    method EndList()
      requires StackShape()
      modifies this`top, size
      ensures StackShape() && Stack() == EndListFrames(old(Stack()))
      decreases top + 1, 0
    {
      ghost var s0 := Stack();
      var inList := IsInList();
      var finished := IsListFinished();
      if inList && finished {
        Pop();
        assert Stack() == Popped(s0);
        ElementRead();
      }
    }

    // -------------------------------------------------------------------------
    // Low-level reading

    /** readValue<T> for a T of n bytes (the bytes are returned raw). */
    method ReadValue(n: nat) returns (r: Result<seq<byte>>)
      requires Valid()
      modifies this`pos, this`failed, this`byteCount
      ensures Valid() && Step(State(), r) == ReadN(data, old(State()), n)
    {
      byteCount := byteCount + n;
      if failed || pos + n > |data| {
        pos, failed := |data|, true;
        return Err(Eof);
      }
      r := Ok(data[pos..pos + n]);
      pos := pos + n;
    }

    /** A relative seek of n bytes: File->seekg(n, cur) and ByteCount += n. */
    method SeekBy(n: nat) returns (r: Result<()>)
      requires Valid()
      modifies this`pos, this`failed, this`byteCount
      ensures Valid()
      ensures r.Ok? <==> !old(failed) && Seek(data, old(pos), n).Ok?
      ensures r.Ok? ==> !failed && pos == old(pos) + n
      ensures r.Err? ==> r == Err(Eof)
      ensures byteCount == old(byteCount) + n
    {
      byteCount := byteCount + n;
      if failed || pos + n > |data| {
        pos, failed := |data|, true;
        return Err(Eof);
      }
      pos := pos + n;
      r := Ok(());
    }

    // -------------------------------------------------------------------------
    // Tag header reading

    method PeekTagType() returns (r: Result<byte>)
      requires Valid()
      modifies this`pos, this`failed
      ensures Valid() && Step(State(), r) == PeekStep(data, old(State()))
    {
      if failed || pos + 1 > |data| {
        pos, failed := |data|, true;
        return Err(Eof);
      }
      r := Ok(data[pos]);
    }

    method ReadTagType() returns (r: Result<byte>)
      requires Valid()
      modifies this`pos, this`failed, this`byteCount
      ensures Valid() && Step(State(), r) == TagTypeStep(data, old(State()))
    {
      var a := ReadValue(1);
      if a.Err? {
        return Err(a.error);
      }
      r := Ok(a.value[0]);
    }

    /** readTagName: an int16 length, then that many bytes. readString reads
        its payload with the same code. */
    method ReadTagName() returns (r: Result<string>)
      requires Valid()
      modifies this`pos, this`failed, this`byteCount
      ensures Valid() && Step(State(), r) == LengthPrefixedStep(data, old(State()))
    {
      var a := ReadValue(2);
      if a.Err? {
        return Err(a.error);
      }
      var len := Signed(a.value);
      if len < 0 {
        return Err(NegativeLength);
      }
      var b := ReadValue(len);
      if b.Err? {
        return Err(b.error);
      }
      r := Ok(Chars(b.value));
    }

    /** The named-tag header every read checks in compound context. */
    method ReadHeader(tag: byte, expected: Option<string>) returns (r: Result<string>)
      requires Valid()
      modifies this`pos, this`failed, this`byteCount
      ensures Valid() && Step(State(), r) == HeaderStep(data, old(State()), tag, expected)
    {
      var t := ReadTagType();
      if t.Err? {
        return Err(t.error);
      }
      if t.value != tag {
        return Err(TagMismatch(tag, t.value));
      }
      r := ReadTagName();
      if r.Ok? && expected.Some? && r.value != expected.value {
        r := Err(NameMismatch(expected.value, r.value));
      }
    }

    /** The check before a typed read: a header in compound context, the
        list's element type in list context. */
    method Prologue(tag: byte, expected: Option<string>) returns (r: Result<()>)
      requires Valid()
      modifies this`pos, this`failed, this`byteCount
      ensures Valid() && Step(State(), r) == PrologueStep(data, old(State()), tag, expected)
    {
      var inCompound := IsInCompound();
      if inCompound {
        var h := ReadHeader(tag, expected);
        r := if h.Err? then Err(h.error) else Ok(());
      } else {
        var matches := TypeMatch(tag);
        r := if matches then Ok(()) else Err(ListTypeMismatch);
      }
    }

    /** The header of a list or an array, read only in compound context. */
    method CompoundHeader(tag: byte, expected: Option<string>) returns (r: Result<()>)
      requires Valid()
      modifies this`pos, this`failed, this`byteCount
      ensures Valid() && Step(State(), r) == CompoundHeaderStep(data, old(State()), tag, expected)
    {
      var inCompound := IsInCompound();
      if inCompound {
        var h := ReadHeader(tag, expected);
        r := if h.Err? then Err(h.error) else Ok(());
      } else {
        // in a list the element type was fixed by the list's own header
        r := Ok(());
      }
    }

    // -------------------------------------------------------------------------
    // Skip operations

    /** skipTag: moves the cursor past a payload of type t without decoding it. */
    method SkipTag(t: byte) returns (r: Result<()>)
      requires Valid()
      modifies this`pos, this`failed, this`byteCount
      ensures Valid()
      ensures r.Ok? <==> !old(failed) && SkipPayload(data, old(pos), t).Ok?
      ensures r.Ok? ==> !failed && pos == SkipPayload(data, old(pos), t).value
      ensures r.Err? && !old(failed) ==> r.error == SkipPayload(data, old(pos), t).error
      decreases |data| - pos, 2
    {
      if t == TAG_BYTE {
        r := SeekBy(1);
      } else if t == TAG_SHORT {
        r := SeekBy(2);
      } else if t == TAG_INT || t == TAG_FLOAT {
        r := SeekBy(4);
      } else if t == TAG_LONG || t == TAG_DOUBLE {
        r := SeekBy(8);
      } else if t == TAG_STRING {
        var len := ReadValue(2);
        if len.Err? {
          return Err(len.error);
        }
        var n := Signed(len.value);
        if n < 0 {
          return Err(NegativeLength);
        }
        r := SeekBy(n);
      } else if t == TAG_BYTE_ARRAY || t == TAG_INT_ARRAY || t == TAG_LONG_ARRAY {
        var c := ReadValue(4);
        if c.Err? {
          return Err(c.error);
        }
        var count := Signed(c.value);
        var width := if t == TAG_BYTE_ARRAY then 1 else if t == TAG_INT_ARRAY then 4 else 8;
        if count < 0 {
          return Err(NegativeLength);
        }
        r := SeekBy(count * width);
      } else if t == TAG_LIST {
        r := SkipList();
      } else if t == TAG_COMPOUND {
        r := SkipCompound();
      } else {
        r := Err(UnknownTag(t));
      }
    }

    /** The List case of skipTag: element type, count, then each element. */
    method SkipList() returns (r: Result<()>)
      requires Valid()
      modifies this`pos, this`failed, this`byteCount
      ensures Valid()
      ensures r.Ok? <==> !old(failed) && SkipPayload(data, old(pos), TAG_LIST).Ok?
      ensures r.Ok? ==> !failed && pos == SkipPayload(data, old(pos), TAG_LIST).value
      ensures r.Err? && !old(failed) ==> r.error == SkipPayload(data, old(pos), TAG_LIST).error
      decreases |data| - pos, 1
    {
      var et := ReadValue(1);
      if et.Err? {
        return Err(et.error);
      }
      var c := ReadValue(4);
      if c.Err? {
        return Err(c.error);
      }
      var elementType := et.value[0];
      var count := Signed(c.value);
      assert data[old(pos) + 1..old(pos) + 5] == c.value;
      var i := 0;
      while i < count
        invariant Valid() && !failed && old(pos) + 5 <= pos
        invariant 0 <= i && (count >= 0 ==> i <= count)
        invariant SkipElements(data, old(pos) + 5, elementType, count) == SkipElements(data, pos, elementType, count - i)
        decreases count - i
      {
        ghost var before := pos;
        var e := SkipTag(elementType);
        if e.Err? {
          assert SkipElements(data, before, elementType, count - i).Err?;
          return Err(e.error);
        }
        i := i + 1;
      }
      r := Ok(());
    }

    /** The Compound case of skipTag: (type, name, payload) until End. */
    method SkipCompound() returns (r: Result<()>)
      requires Valid()
      modifies this`pos, this`failed, this`byteCount
      ensures Valid()
      ensures r.Ok? <==> !old(failed) && SkipPayload(data, old(pos), TAG_COMPOUND).Ok?
      ensures r.Ok? ==> !failed && pos == SkipPayload(data, old(pos), TAG_COMPOUND).value
      ensures r.Err? && !old(failed) ==> r.error == SkipPayload(data, old(pos), TAG_COMPOUND).error
      decreases |data| - pos, 1
    {
      if failed {
        var ty := ReadTagType();
        return Err(ty.error);
      }
      var done := false;
      while !done
        invariant Valid() && !failed && old(pos) <= pos
        invariant !done ==> SkipMembers(data, old(pos)) == SkipMembers(data, pos)
        invariant done ==> SkipMembers(data, old(pos)) == Ok(pos)
        decreases |data| - pos, if done then 0 else 1
      {
        ghost var before := pos;
        var ty := ReadTagType();
        if ty.Err? {
          return Err(ty.error);
        }
        if ty.value == TAG_END {
          done := true;
        } else {
          var e := SkipNameAndPayload(before, ty.value);
          if e.Err? {
            return Err(e.error);
          }
        }
      }
      r := Ok(());
    }

    /** The rest of a named tag whose type byte `t`, found at offset q, has
        just been read: readTagName, then skipTag(t). */
    method SkipNameAndPayload(ghost q: nat, t: byte) returns (r: Result<()>)
      requires Valid() && !failed && q < |data| && pos == q + 1 && data[q] == t
      modifies this`pos, this`failed, this`byteCount
      ensures Valid()
      ensures r.Ok? <==> SkipNamed(data, q).Ok?
      ensures r.Ok? ==> !failed && pos == SkipNamed(data, q).value
      ensures r.Err? ==> r.error == SkipNamed(data, q).error
      decreases |data| - pos, 2
    {
      var name := ReadTagName();
      if name.Err? {
        return Err(name.error);
      }
      r := SkipTag(t);
    }

    /** skipCurrentTag: a whole named tag in compound context; the next
        element, then elementRead, in list context. */
    method SkipCurrentTag() returns (r: Result<()>)
      requires Valid()
      modifies this, size
      ensures Valid()
      ensures var spec := SkipCurrentSpec(data, old(pos), old(Stack()));
              (r.Ok? <==> !old(failed) && spec.Ok?)
              && (r.Ok? ==> !failed && pos == spec.value.0 && Stack() == spec.value.1)
              && (r.Err? && !old(failed) ==> r.error == spec.error)
      ensures r.Err? ==> Stack() == old(Stack())
    {
      ghost var s0 := Stack();
      var inCompound := IsInCompound();
      if inCompound {
        ghost var q := pos;
        var ty := ReadTagType();
        if ty.Err? {
          return Err(ty.error);
        }
        r := SkipNameAndPayload(q, ty.value);
      } else {
        var t := CurrentType();
        r := SkipTag(t);
        assert Stack() == s0;
        if r.Ok? {
          ElementRead();
        }
      }
    }

    // -------------------------------------------------------------------------
    // Compounds and lists

    method EnterCompound(expected: Option<string>) returns (r: Result<()>)
      requires Valid()
      modifies this, cla, size
      ensures Valid() && Step(State(), r) == EnterStep(data, old(State()), expected)
    {
      var inCompound := IsInCompound();
      if inCompound && expected.Some? {
        var h := ReadHeader(TAG_COMPOUND, expected);
        if h.Err? {
          return Err(h.error);
        }
      }
      Push(TAG_END, 0);
      r := Ok(());
    }

    method ExitCompound() returns (r: Result<()>)
      requires Valid()
      modifies this, size
      ensures Valid() && Step(State(), r) == ExitStep(data, old(State()))
    {
      var inCompound := IsInCompound();
      if !inCompound {
        return Err(NotInCompound);
      }
      var endTag := ReadTagType();
      if endTag.Err? {
        return Err(endTag.error);
      }
      if endTag.value != TAG_END {
        return Err(ExpectedEnd);
      }
      Pop();
      ElementRead();
      r := Ok(());
    }

    /** readListHead: yields (elementType, count), the source's two out-parameters. */
    method ReadListHead(expected: Option<string>) returns (r: Result<(byte, int)>)
      requires Valid()
      modifies this, cla, size
      ensures Valid() && Step(State(), r) == ListHeadStep(data, old(State()), expected)
    {
      var h := CompoundHeader(TAG_LIST, expected);
      if h.Err? {
        return Err(h.error);
      }
      var et := ReadValue(1);
      if et.Err? {
        return Err(et.error);
      }
      var n := ReadValue(4);
      if n.Err? {
        return Err(n.error);
      }
      var elementType := et.value[0];
      var count := Signed(n.value);
      Push(elementType, count);
      if count == 0 {
        ElementRead();
      }
      r := Ok((elementType, count));
    }

    method ReadArrayHead(arrayTag: byte, elementTag: byte, expected: Option<string>) returns (r: Result<int>)
      requires Valid()
      modifies this, cla, size
      ensures Valid() && Step(State(), r) == ArrayHeadStep(data, old(State()), arrayTag, elementTag, expected)
    {
      var h := CompoundHeader(arrayTag, expected);
      if h.Err? {
        return Err(h.error);
      }
      var n := ReadValue(4);
      if n.Err? {
        return Err(n.error);
      }
      var count := Signed(n.value);
      Push(elementTag, count);
      if count == 0 {
        ElementRead();
      }
      r := Ok(count);
    }

    method ReadByteArrayHead(expected: Option<string>) returns (r: Result<int>)
      requires Valid()
      modifies this, cla, size
      ensures Valid() && Step(State(), r) == ArrayHeadStep(data, old(State()), TAG_BYTE_ARRAY, TAG_BYTE, expected)
    {
      r := ReadArrayHead(TAG_BYTE_ARRAY, TAG_BYTE, expected);
    }

    method ReadIntArrayHead(expected: Option<string>) returns (r: Result<int>)
      requires Valid()
      modifies this, cla, size
      ensures Valid() && Step(State(), r) == ArrayHeadStep(data, old(State()), TAG_INT_ARRAY, TAG_INT, expected)
    {
      r := ReadArrayHead(TAG_INT_ARRAY, TAG_INT, expected);
    }

    method ReadLongArrayHead(expected: Option<string>) returns (r: Result<int>)
      requires Valid()
      modifies this, cla, size
      ensures Valid() && Step(State(), r) == ArrayHeadStep(data, old(State()), TAG_LONG_ARRAY, TAG_LONG, expected)
    {
      r := ReadArrayHead(TAG_LONG_ARRAY, TAG_LONG, expected);
    }

    // -------------------------------------------------------------------------
    // Single tags

    /** The shape shared by readByte … readDouble: check, payload, elementRead. */
    method ReadPrimitive(tag: byte, width: nat, expected: Option<string>) returns (r: Result<seq<byte>>)
      requires Valid()
      modifies this, size
      ensures Valid() && Step(State(), r) == PrimitiveStep(data, old(State()), tag, width, expected)
    {
      var h := Prologue(tag, expected);
      if h.Err? {
        return Err(h.error);
      }
      r := ReadValue(width);
      if r.Ok? {
        ElementRead();
      }
    }

    method ReadByte(expected: Option<string>) returns (r: Result<int>)
      requires Valid()
      modifies this, size
      ensures Valid()
      ensures var spec := PrimitiveStep(data, old(State()), TAG_BYTE, 1, expected);
              State() == spec.st && r == SignedValue(spec.res)
    {
      var v := ReadPrimitive(TAG_BYTE, 1, expected);
      r := SignedValue(v);
    }

    method ReadShort(expected: Option<string>) returns (r: Result<int>)
      requires Valid()
      modifies this, size
      ensures Valid()
      ensures var spec := PrimitiveStep(data, old(State()), TAG_SHORT, 2, expected);
              State() == spec.st && r == SignedValue(spec.res)
    {
      var v := ReadPrimitive(TAG_SHORT, 2, expected);
      r := SignedValue(v);
    }

    method ReadInt(expected: Option<string>) returns (r: Result<int>)
      requires Valid()
      modifies this, size
      ensures Valid()
      ensures var spec := PrimitiveStep(data, old(State()), TAG_INT, 4, expected);
              State() == spec.st && r == SignedValue(spec.res)
    {
      var v := ReadPrimitive(TAG_INT, 4, expected);
      r := SignedValue(v);
    }

    method ReadLong(expected: Option<string>) returns (r: Result<int>)
      requires Valid()
      modifies this, size
      ensures Valid()
      ensures var spec := PrimitiveStep(data, old(State()), TAG_LONG, 8, expected);
              State() == spec.st && r == SignedValue(spec.res)
    {
      var v := ReadPrimitive(TAG_LONG, 8, expected);
      r := SignedValue(v);
    }

    /** readFloat: the 4-byte IEEE-754 bit pattern, not its numeric value. */
    method ReadFloat(expected: Option<string>) returns (r: Result<nat>)
      requires Valid()
      modifies this, size
      ensures Valid()
      ensures var spec := PrimitiveStep(data, old(State()), TAG_FLOAT, 4, expected);
              State() == spec.st && r == BitsValue(spec.res)
    {
      var v := ReadPrimitive(TAG_FLOAT, 4, expected);
      r := BitsValue(v);
    }

    /** readDouble: the 8-byte IEEE-754 bit pattern, not its numeric value. */
    method ReadDouble(expected: Option<string>) returns (r: Result<nat>)
      requires Valid()
      modifies this, size
      ensures Valid()
      ensures var spec := PrimitiveStep(data, old(State()), TAG_DOUBLE, 8, expected);
              State() == spec.st && r == BitsValue(spec.res)
    {
      var v := ReadPrimitive(TAG_DOUBLE, 8, expected);
      r := BitsValue(v);
    }

    method ReadString(expected: Option<string>) returns (r: Result<string>)
      requires Valid()
      modifies this, size
      ensures Valid() && Step(State(), r) == StringStep(data, old(State()), expected)
    {
      var h := Prologue(TAG_STRING, expected);
      if h.Err? {
        return Err(h.error);
      }
      r := ReadTagName();
      if r.Ok? {
        ElementRead();
      }
    }

    method GetByteCount() returns (n: nat)
      requires Valid()
      ensures n == State().byteCount
      ensures !failed ==> n == pos
    {
      n := byteCount;
    }
  }
}
