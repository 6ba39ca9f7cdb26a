/** Properties of the reader that relate several of its operations: how
    elementRead counts and cascades, what the typed reads check in each
    context, how far skipping moves and how it agrees with reading, and the
    four places where the source as written reads outside its arrays or moves
    the cursor backwards (each next to the corrected behaviour the model
    uses). */
module ReaderProps {
  import opened Wire
  import opened ReaderSpec

  // ---------------------------------------------------------------------------
  // elementRead and endList

  /** In a list, elementRead with more than one element left only counts one
      down; with one (or none) left it pops the list and counts the list
      itself as one element of the parent, which may cascade further. */
  lemma ElementReadInList(stack: seq<Frame>)
    requires InList(stack)
    ensures stack[|stack| - 1].remaining > 1 ==> AfterElementRead(stack) == DecrementTop(stack)
    ensures stack[|stack| - 1].remaining <= 1 ==> AfterElementRead(stack) == AfterElementRead(Popped(stack))
  {
    var top := stack[|stack| - 1];
    if top.remaining > 1 {
      var s1 := DecrementTop(stack);
      assert !ListFinished(s1);
      assert AfterElementRead(stack) == s1;
    } else {
      var s1 := if top.remaining > 0 then DecrementTop(stack) else stack;
      assert ListFinished(s1) && InList(s1);
      assert Popped(s1) == Popped(stack);
      assert AfterElementRead(stack) == EndListFrames(s1);
      assert EndListFrames(s1) == AfterElementRead(Popped(s1));
    }
  }

  /** The last element of the innermost of any number of nested lists, each
      on its last element (or already empty), finishes them all: the cascade
      pops every list, counting each as the last element of the one below,
      and stops at the enclosing compound, whose frames it leaves as they are. */
  lemma {:induction false} NestedListsCascade(base: seq<Frame>, lists: seq<Frame>)
    requires !InList(base)
    requires forall i :: 0 <= i < |lists| ==> lists[i].tag != TAG_END && lists[i].remaining <= 1
    ensures AfterElementRead(base + lists) == base
    decreases |lists|
  {
    if lists == [] {
      assert base + lists == base;
      AfterElementReadShape(base);
    } else {
      var rest, last := lists[..|lists| - 1], lists[|lists| - 1];
      var s := (base + rest) + [last];
      assert base + lists == s by {
        assert lists == rest + [last];
      }
      assert last.tag != TAG_END && last.remaining <= 1;
      ElementReadInList(s);
      assert Popped(s) == base + rest;
      NestedListsCascade(base, rest);
    }
  }

  // ---------------------------------------------------------------------------
  // List and array heads

  /** A list or array head with count 0 is popped at once and counted as one
      element of its parent: the stack ends up exactly as if the parent had
      read one element. */
  lemma EmptyListCountsInParent(stack: seq<Frame>, t: byte)
    requires t != TAG_END && |stack| < TwinStackSize
    ensures ListPushed(stack, Frame(t, 0)) == AfterElementRead(stack)
  {
    var pushed := stack + [Frame(t, 0)];
    assert Pushed(stack, Frame(t, 0)) == pushed;
    assert InList(pushed) && pushed[|pushed| - 1].remaining == 0;
    ElementReadInList(pushed);
    assert Popped(pushed) == stack;
  }

  /** The exception: an empty list of End elements pushes the frame (End, 0),
      which the reader cannot tell from a compound's frame. It is not popped,
      and every later read takes it for compound context until an
      exitCompound removes it. */
  lemma EmptyEndListLeavesFrame(stack: seq<Frame>)
    requires |stack| < TwinStackSize
    ensures ListPushed(stack, Frame(TAG_END, 0)) == stack + [RootFrame]
    ensures InCompound(ListPushed(stack, Frame(TAG_END, 0)))
  {
    var pushed := stack + [RootFrame];
    assert Pushed(stack, RootFrame) == pushed;
    AfterElementReadShape(pushed);
  }

  // ---------------------------------------------------------------------------
  // Typed reads

  /** In compound context a typed read whose type byte is not the expected
      tag id throws "Expected <TYPE> tag", naming both types. */
  lemma WrongTagInCompound(data: seq<byte>, s: RState, tag: byte, width: nat, expected: Option<string>)
    requires s.pos < |data| && !s.failed && InCompound(s.stack) && data[s.pos] != tag
    ensures PrimitiveStep(data, s, tag, width, expected).res == Err(TagMismatch(tag, data[s.pos]))
    ensures tag == TAG_STRING ==> StringStep(data, s, expected).res == Err(TagMismatch(tag, data[s.pos]))
  {
    TagTypeStepFacts(data, s);
  }

  /** The name check is exactly a comparison with the name in the file: with
      no expected name the header is accepted whatever its name, and with an
      expected name m the same bytes are read and the read throws
      "Expected tag name" precisely when the name read differs from m. */
  lemma NameCheck(data: seq<byte>, s: RState, tag: byte, m: string)
    requires s.pos <= |data|
    ensures var plain := HeaderStep(data, s, tag, None);
            var named := HeaderStep(data, s, tag, Some(m));
            && named.st == plain.st
            && (plain.res.Ok? ==> named.res == if plain.res.value == m then plain.res
                                               else Err(NameMismatch(m, plain.res.value)))
            && (plain.res.Err? ==> named.res == plain.res)
            && !(plain.res.Err? && plain.res.error.NameMismatch?)
  {
  }

  /** In list context a typed read reads no header and ignores the expected
      name. It throws "Type mismatch in list", consuming nothing, unless the
      list's element type is the read's type; otherwise it consumes exactly
      the payload and counts one element of the list. */
  lemma ListElementRead(data: seq<byte>, s: RState, tag: byte, width: nat, expected: Option<string>)
    requires s.pos <= |data| && InList(s.stack)
    ensures var r := PrimitiveStep(data, s, tag, width, expected);
      && r == PrimitiveStep(data, s, tag, width, None)
      && (s.stack[|s.stack| - 1].tag != tag ==> r == Step(s, Err(ListTypeMismatch)))
      && (s.stack[|s.stack| - 1].tag == tag && !s.failed && s.pos + width <= |data| ==>
            r == Step(RState(s.pos + width, false, s.byteCount + width, AfterElementRead(s.stack)),
                      Ok(data[s.pos..s.pos + width])))
  {
  }

  // ---------------------------------------------------------------------------
  // Skipping agrees with reading

  /** skipTag(String) stops where readString's payload read stops, and fails
      with the same error where that read throws. */
  lemma SkipStringMatchesRead(data: seq<byte>, s: RState)
    requires s.pos <= |data| && !s.failed
    ensures var k, r := SkipPayload(data, s.pos, TAG_STRING), LengthPrefixedStep(data, s);
      && (k.Ok? <==> r.res.Ok?)
      && (k.Ok? ==> k.value == r.st.pos)
      && (k.Err? ==> k.error == r.res.error)
  {
    SkipStringOutcome(data, s.pos);
    LengthPrefixedOutcome(data, s);
  }

  /** The outcome of readString's payload read at s, spelled out case by case. */
  lemma LengthPrefixedOutcome(data: seq<byte>, s: RState)
    requires s.pos <= |data| && !s.failed
    ensures var r := LengthPrefixedStep(data, s);
      var p := s.pos;
      if p + 2 > |data| then r.res == Err(Eof)
      else if Signed(data[p..p + 2]) < 0 then r.res == Err(NegativeLength)
      else if p + 2 + Signed(data[p..p + 2]) > |data| then r.res == Err(Eof)
      else r.res.Ok? && r.st.pos == p + 2 + Signed(data[p..p + 2])
  {
    var p := s.pos;
    var a := ReadN(data, s, 2);
    if p + 2 <= |data| {
      assert a.res == Ok(data[p..p + 2]) && a.st.pos == p + 2;
      var len := Signed(data[p..p + 2]);
      if len >= 0 {
        var b := ReadN(data, a.st, len);
        assert b.res.Ok? <==> p + 2 + len <= |data|;
      }
    }
  }

  /** The outcome of skipTag(String) at offset p, spelled out case by case. */
  lemma SkipStringOutcome(data: seq<byte>, p: nat)
    requires p <= |data|
    ensures SkipPayload(data, p, TAG_STRING) ==
      if p + 2 > |data| then Err(Eof)
      else if Signed(data[p..p + 2]) < 0 then Err(NegativeLength)
      else if p + 2 + Signed(data[p..p + 2]) > |data| then Err(Eof)
      else Ok(p + 2 + Signed(data[p..p + 2]))
  {
  }

  /** The payload width of each fixed-size tag type. */
  function FixedWidth(t: byte): (w: nat)
    requires t in {TAG_BYTE, TAG_SHORT, TAG_INT, TAG_LONG, TAG_FLOAT, TAG_DOUBLE}
    ensures w in {1, 2, 4, 8}
  {
    if t == TAG_BYTE then 1
    else if t == TAG_SHORT then 2
    else if t == TAG_INT || t == TAG_FLOAT then 4
    else 8
  }

  /** Skipping an element of a list of a fixed-size type moves the cursor
      exactly as far as reading it does, and fails exactly when the read does. */
  lemma SkipFixedMatchesRead(data: seq<byte>, s: RState, t: byte)
    requires s.pos <= |data| && !s.failed && InList(s.stack) && s.stack[|s.stack| - 1].tag == t
    requires t in {TAG_BYTE, TAG_SHORT, TAG_INT, TAG_LONG, TAG_FLOAT, TAG_DOUBLE}
    ensures var r := PrimitiveStep(data, s, t, FixedWidth(t), None);
      SkipPayload(data, s.pos, t) == if r.res.Ok? then Ok(r.st.pos) else Err(r.res.error)
  {
    ListElementRead(data, s, t, FixedWidth(t), None);
  }

  /** The element width of each array type. */
  function ArrayWidth(t: byte): (w: nat)
    requires t in {TAG_BYTE_ARRAY, TAG_INT_ARRAY, TAG_LONG_ARRAY}
    ensures w in {1, 4, 8}
  {
    if t == TAG_BYTE_ARRAY then 1 else if t == TAG_INT_ARRAY then 4 else 8
  }

  /** The outcome of skipTag(ByteArray / IntArray / LongArray) at offset p,
      spelled out case by case: an int32 count, then exactly count elements of
      the array's width. */
  lemma SkipArrayOutcome(data: seq<byte>, p: nat, t: byte)
    requires p <= |data| && t in {TAG_BYTE_ARRAY, TAG_INT_ARRAY, TAG_LONG_ARRAY}
    ensures SkipPayload(data, p, t) ==
      if p + 4 > |data| then Err(Eof)
      else if Signed(data[p..p + 4]) < 0 then Err(NegativeLength)
      else if p + 4 + Signed(data[p..p + 4]) * ArrayWidth(t) > |data| then Err(Eof)
      else Ok(p + 4 + Signed(data[p..p + 4]) * ArrayWidth(t))
  {
  }

  /** End has no payload and a byte that is no tag type has none either:
      skipTag throws for both. */
  lemma SkipUnknownTag(data: seq<byte>, p: nat, t: byte)
    requires p <= |data| && (t == TAG_END || t > TAG_LONG_ARRAY)
    ensures SkipPayload(data, p, t) == Err(UnknownTag(t))
  {
  }

  /** count elements of a fixed-size type, skipped one by one, take exactly
      count times the type's width. */
  lemma {:induction false} SkipFixedElements(data: seq<byte>, q: nat, t: byte, count: nat)
    requires t in {TAG_BYTE, TAG_SHORT, TAG_INT, TAG_LONG, TAG_FLOAT, TAG_DOUBLE}
    requires q + count * FixedWidth(t) <= |data|
    ensures SkipElements(data, q, t, count) == Ok(q + count * FixedWidth(t))
    decreases count
  {
    if count > 0 {
      var w := FixedWidth(t);
      assert SkipPayload(data, q, t) == Ok(q + w);
      assert q + w + (count - 1) * w == q + count * w;
      SkipFixedElements(data, q + w, t, count - 1);
    }
  }

  /** skipTag(List) of a fixed-size element type: the element type byte and
      the int32 count, then count elements of the type's width; a count of
      zero or less skips the head only. */
  lemma SkipFixedList(data: seq<byte>, p: nat, t: byte)
    requires p + 5 <= |data| && data[p] == t
    requires t in {TAG_BYTE, TAG_SHORT, TAG_INT, TAG_LONG, TAG_FLOAT, TAG_DOUBLE}
    ensures var n := Signed(data[p + 1..p + 5]);
      && (n <= 0 ==> SkipPayload(data, p, TAG_LIST) == Ok(p + 5))
      && (n > 0 && p + 5 + n * FixedWidth(t) <= |data| ==>
            SkipPayload(data, p, TAG_LIST) == Ok(p + 5 + n * FixedWidth(t)))
  {
    var n := Signed(data[p + 1..p + 5]);
    if n > 0 && p + 5 + n * FixedWidth(t) <= |data| {
      SkipFixedElements(data, p + 5, t, n);
    }
  }

  // ---------------------------------------------------------------------------
  // The source as written

  /** push as written: isFull tests top >= TwinStackSize, so the slot written
      next is top + 1 for every top below TwinStackSize. */
  function PushSlotAsWritten(top: int): Option<int>
  {
    if top >= TwinStackSize then None else Some(top + 1)
  }

  /** On a stack holding TwinStackSize - 1 … 0 frames the as-written push
      writes a slot outside CLA and Size exactly when the stack already holds
      TwinStackSize frames (top == 127): it writes CLA[128] and Size[128]. */
  lemma PushOverrunsAsWritten(top: int)
    requires -1 <= top < TwinStackSize
    ensures PushSlotAsWritten(top).Some?
    ensures PushSlotAsWritten(top).value >= TwinStackSize <==> top == TwinStackSize - 1
  {
  }

  /** The Size slot isListFinished reads, as written: Size[top]. */
  function ListFinishedSlotAsWritten(stack: seq<Frame>): int
  {
    |stack| - 1
  }

  /** exitCompound on the root compound (the file 0A 00 00 00) pops the last
      frame and then runs elementRead, whose isListFinished reads Size[-1]
      as written. The model takes the empty stack as finished and leaves it
      empty. */
  lemma ExitRootReadsBelowStackAsWritten()
    ensures var data: seq<byte> := [TAG_COMPOUND, 0, 0, TAG_END];
      && OpenStep(data) == Ok(RState(3, false, 3, [RootFrame]))
      && ListFinishedSlotAsWritten(Popped([RootFrame])) == -1
      && ExitStep(data, RState(3, false, 3, [RootFrame])) == Step(RState(4, false, 4, []), Ok(()))
  {
    var data: seq<byte> := [TAG_COMPOUND, 0, 0, TAG_END];
    assert data[..3] == [TAG_COMPOUND, 0, 0];
    assert Popped([RootFrame]) == [];
    AfterElementReadShape([]);
  }

  /** skipTag(String) as written: seekg(length) with the signed int16 length,
      so a negative length moves the cursor backwards. */
  function SkipStringAsWritten(data: seq<byte>, p: nat): Result<int>
    requires p <= |data|
  {
    if p + 2 > |data| then Err(Eof) else Ok(p + 2 + Signed(data[p..p + 2]))
  }

  /** The compound 08 00 00 FF FB …: its first member is a String with an
      empty name and length -5. Skipping that payload as written puts the
      cursor back on the member's own type byte, so skipTag(Compound) reads
      the same member again and again and never returns. The model refuses
      the negative length instead. */
  lemma SkipCompoundLoopsAsWritten()
    ensures var data: seq<byte> := [TAG_STRING, 0, 0, 0xFF, 0xFB];
      && data[0] == TAG_STRING && Signed(data[1..3]) == 0
      && SkipStringAsWritten(data, 3) == Ok(0)
      && SkipPayload(data, 0, TAG_COMPOUND) == Err(NegativeLength)
  {
    var data: seq<byte> := [TAG_STRING, 0, 0, 0xFF, 0xFB];
    assert data[1..3] == [0, 0] && BigEndian([0, 0]) == 0 by {
      assert [0, 0][..1] == [0];
    }
    assert data[3..5] == [0xFF, 0xFB] && BigEndian([0xFF, 0xFB]) == 0xFFFB by {
      assert [0xFF, 0xFB][..1] == [0xFF];
      assert [0xFF as byte][..0] == [];
    }
    assert Pow256(2) == 0x1_0000 by {
      assert Pow256(1) == 256;
    }
    assert SkipPayload(data, 3, TAG_STRING) == Err(NegativeLength);
    assert SkipNamed(data, 0) == Err(NegativeLength);
    assert SkipMembers(data, 0) == Err(NegativeLength);
  }

  /** skipTag(ByteArray / IntArray / LongArray) as written: seekg(count *
      width) with the signed int32 count, so a negative count moves the
      cursor backwards. */
  function SkipArrayAsWritten(data: seq<byte>, p: nat, t: byte): Result<int>
    requires p <= |data| && t in {TAG_BYTE_ARRAY, TAG_INT_ARRAY, TAG_LONG_ARRAY}
  {
    if p + 4 > |data| then Err(Eof) else Ok(p + 4 + Signed(data[p..p + 4]) * ArrayWidth(t))
  }

  /** The compound 07 00 00 FF FF FF F9 …: its first member is a ByteArray
      with an empty name and count -7. Skipping that payload as written puts
      the cursor back on the member's own type byte, so skipTag(Compound)
      reads the same member again and again and never returns. The model
      refuses the negative count instead. */
  lemma SkipArrayLoopsAsWritten()
    ensures var data: seq<byte> := [TAG_BYTE_ARRAY, 0, 0, 0xFF, 0xFF, 0xFF, 0xF9];
      && data[0] == TAG_BYTE_ARRAY && Signed(data[1..3]) == 0
      && SkipArrayAsWritten(data, 3, TAG_BYTE_ARRAY) == Ok(0)
      && SkipPayload(data, 0, TAG_COMPOUND) == Err(NegativeLength)
  {
    var data: seq<byte> := [TAG_BYTE_ARRAY, 0, 0, 0xFF, 0xFF, 0xFF, 0xF9];
    assert data[1..3] == [0, 0] && BigEndian([0, 0]) == 0 by {
      assert [0, 0][..1] == [0];
    }
    var c: seq<byte> := [0xFF, 0xFF, 0xFF, 0xF9];
    assert data[3..7] == c;
    assert BigEndian(c) == 0xFFFF_FFF9 by {
      var c1: seq<byte> := [0xFF];
      var c2: seq<byte> := [0xFF, 0xFF];
      var c3: seq<byte> := [0xFF, 0xFF, 0xFF];
      assert c1[..0] == [] && BigEndian(c1) == 0xFF;
      assert c2[..1] == c1 && BigEndian(c2) == 0xFFFF;
      assert c3[..2] == c2 && BigEndian(c3) == 0xFF_FFFF;
      assert c[..3] == c3;
    }
    assert Pow256(4) == 0x1_0000_0000 by {
      assert Pow256(1) == 256;
      assert Pow256(2) == 0x1_0000;
      assert Pow256(3) == 0x100_0000;
    }
    assert Signed(c) == -7;
    assert SkipPayload(data, 3, TAG_BYTE_ARRAY) == Err(NegativeLength);
    assert SkipNamed(data, 0) == Err(NegativeLength);
    assert SkipMembers(data, 0) == Err(NegativeLength);
  }
}
