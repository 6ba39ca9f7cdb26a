/** The streaming NBT reader as a state machine over an immutable byte
    sequence. `RState` is everything the reader object holds that matters:
    the file cursor, the stream's sticky failure bit, the byte counter and the
    structural twin stack, read as a sequence of (tag type, remaining) frames.
    Each reader operation is one function from the state before to the state
    after together with its result, or with the error it throws. The class in
    module NBTReader is proved to follow these functions step by step. */
module ReaderSpec {
  import opened Wire

  /** Capacity of the structural stack (the length of the CLA and Size arrays). */
  const TwinStackSize: nat := 128

  datatype Option<T> = None | Some(value: T)

  /** One frame of the twin stack: tag End means "inside a compound"; any other
      tag means "inside a list or array of that element type with `remaining`
      elements left". */
  datatype Frame = Frame(tag: byte, remaining: int)

  /** The frame pushed for the root compound. */
  const RootFrame: Frame := Frame(TAG_END, 0)

  /** The runtime errors the reader throws, one per kind of message. */
  datatype Error =
    | Eof                                       // "Unexpected EOF while ..." / "Failed to read NBT header"
    | BadRoot                                   // "Invalid NBT file: missing root compound"
    | TagMismatch(wantTag: byte, gotTag: byte)   // "Expected <TYPE> tag"
    | NameMismatch(wantName: string, gotName: string) // "Expected tag name '..' but got '..'"
    | ListTypeMismatch                          // "Type mismatch in list"
    | NegativeLength                            // std::string(length) with a negative int16 length
    | NotInCompound                             // "Not in compound"
    | ExpectedEnd                               // "Expected TAG_END"
    | UnknownTag(tag: byte)                     // "Unknown tag type in skipTag"

  datatype Result<T> = Ok(value: T) | Err(error: Error)

  /** The reader's observable state. `failed` is the input stream's failbit:
      once set, every later read fails. */
  datatype RState = RState(pos: nat, failed: bool, byteCount: nat, stack: seq<Frame>)

  /** The state after an operation together with its outcome. */
  datatype Step<T> = Step(st: RState, res: Result<T>)

  function Fail<T, U>(r: Step<T>): (f: Step<U>)
    requires r.res.Err?
    ensures f.st == r.st && f.res.Err? && f.res.error == r.res.error
  {
    Step(r.st, Err(r.res.error))
  }

  /** ByteCount agrees with the cursor for as long as no read has run past the
      end of the input. */
  predicate Synced(s: RState)
  {
    s.failed || s.byteCount == s.pos
  }

  // ---------------------------------------------------------------------------
  // The twin stack

  /** The context test: an empty stack or a top frame of type End. */
  predicate InCompound(stack: seq<Frame>)
  {
    |stack| == 0 || stack[|stack| - 1].tag == TAG_END
  }

  predicate InList(stack: seq<Frame>)
  {
    !InCompound(stack)
  }

  /** The top frame has no elements left. On the empty stack (where the
      source reads Size[-1]) the answer is "finished". */
  predicate ListFinished(stack: seq<Frame>)
  {
    |stack| == 0 || stack[|stack| - 1].remaining <= 0
  }

  /** push: a silent no-op when the stack is full. */
  function Pushed(stack: seq<Frame>, f: Frame): (r: seq<Frame>)
    ensures |stack| <= TwinStackSize ==> |r| <= TwinStackSize
    ensures r == stack || r == stack + [f]
    ensures r == stack + [f] <==> |stack| < TwinStackSize
  {
    if |stack| >= TwinStackSize then stack else stack + [f]
  }

  /** pop: a no-op on the empty stack. */
  function Popped(stack: seq<Frame>): (r: seq<Frame>)
    ensures |stack| > 0 ==> |r| == |stack| - 1 && stack == r + [stack[|stack| - 1]]
    ensures |stack| == 0 ==> r == []
  {
    if |stack| == 0 then stack else stack[..|stack| - 1]
  }

  function DecrementTop(stack: seq<Frame>): (r: seq<Frame>)
    requires |stack| > 0
    ensures |r| == |stack| && r[..|r| - 1] == stack[..|stack| - 1]
    ensures r[|r| - 1] == Frame(stack[|stack| - 1].tag, stack[|stack| - 1].remaining - 1)
  {
    var t := stack[|stack| - 1];
    stack[..|stack| - 1] + [Frame(t.tag, t.remaining - 1)]
  }

  /** elementRead: counts one element in the current list, and pops every list
      that this finishes, cascading into the parents. */
  function AfterElementRead(stack: seq<Frame>): (r: seq<Frame>)
    ensures |r| <= |stack|
    decreases |stack|, 1
  {
    var s1 := if InList(stack) && !ListFinished(stack) then DecrementTop(stack) else stack;
    if ListFinished(s1) then EndListFrames(s1) else s1
  }

  /** endList: pops a finished list and counts it as one element of its parent. */
  function EndListFrames(stack: seq<Frame>): (r: seq<Frame>)
    ensures |r| <= |stack|
    decreases |stack|, 0
  {
    if InList(stack) && ListFinished(stack) then AfterElementRead(Popped(stack)) else stack
  }

  /** What elementRead may do to the stack: remove finished list frames from
      the top, and lower the counter of the frame left on top. Frames below
      are untouched, and a compound frame is never popped. */
  ghost predicate ElementReadShape(stack: seq<Frame>, r: seq<Frame>)
  {
    && |r| <= |stack|
    && (|r| > 0 ==> r[..|r| - 1] == stack[..|r| - 1]
                    && r[|r| - 1].tag == stack[|r| - 1].tag
                    && r[|r| - 1].remaining <= stack[|r| - 1].remaining)
    && (forall i :: |r| <= i < |stack| ==> stack[i].tag != TAG_END)
  }

  lemma {:induction false} AfterElementReadShape(stack: seq<Frame>)
    ensures ElementReadShape(stack, AfterElementRead(stack))
    ensures InCompound(stack) ==> AfterElementRead(stack) == stack
    decreases |stack|, 1
  {
    var s1 := if InList(stack) && !ListFinished(stack) then DecrementTop(stack) else stack;
    if ListFinished(s1) {
      EndListFramesShape(s1);
    }
  }

  lemma {:induction false} EndListFramesShape(stack: seq<Frame>)
    ensures ElementReadShape(stack, EndListFrames(stack))
    ensures InCompound(stack) ==> EndListFrames(stack) == stack
    decreases |stack|, 0
  {
    if InList(stack) && ListFinished(stack) {
      var p := Popped(stack);
      AfterElementReadShape(p);
      var r := AfterElementRead(p);
      if |r| > 0 {
        assert r[..|r| - 1] == p[..|r| - 1] == stack[..|r| - 1];
      }
    }
  }

  // ---------------------------------------------------------------------------
  // Low-level reads

  /** readValue / File->read of n bytes: ByteCount grows by n whether or not the
      bytes are there; a short read leaves the stream at its end, failed. */
  function ReadN(data: seq<byte>, s: RState, n: nat): (r: Step<seq<byte>>)
    requires s.pos <= |data|
    ensures r.st.pos <= |data| && r.st.stack == s.stack
    ensures r.st.byteCount == s.byteCount + n
    ensures r.res.Ok? <==> !s.failed && s.pos + n <= |data|
    ensures r.res.Ok? ==> !r.st.failed && r.st.pos == s.pos + n && r.res.value == data[s.pos..s.pos + n]
    ensures r.res.Err? ==> r.st.failed && r.res.error == Eof
    ensures Synced(s) ==> Synced(r.st)
  {
    if s.failed || s.pos + n > |data| then
      Step(RState(|data|, true, s.byteCount + n, s.stack), Err(Eof))
    else
      Step(RState(s.pos + n, false, s.byteCount + n, s.stack), Ok(data[s.pos..s.pos + n]))
  }

  /** readTagType: one byte. */
  function TagTypeStep(data: seq<byte>, s: RState): (r: Step<byte>)
    requires s.pos <= |data|
    ensures r.st.pos <= |data|
  {
    var a := ReadN(data, s, 1);
    if a.res.Err? then Fail(a) else Step(a.st, Ok(a.res.value[0]))
  }

  /** An int16 length followed by that many bytes: readTagName, and the payload
      of readString. A negative length makes std::string's constructor throw
      after the two length bytes were consumed. */
  function LengthPrefixedStep(data: seq<byte>, s: RState): (r: Step<string>)
    requires s.pos <= |data|
    ensures r.st.pos <= |data|
  {
    var a := ReadN(data, s, 2);
    if a.res.Err? then Fail(a)
    else
      var len := Signed(a.res.value);
      if len < 0 then Step(a.st, Err(NegativeLength))
      else
        var b := ReadN(data, a.st, len);
        if b.res.Err? then Fail(b) else Step(b.st, Ok(Chars(b.res.value)))
  }

  /** The named-tag header read in compound context: the type byte must be
      `tag`, then the name is read and, when a name is expected, compared.
      Yields the name that was read. */
  function HeaderStep(data: seq<byte>, s: RState, tag: byte, expected: Option<string>): (r: Step<string>)
    requires s.pos <= |data|
    ensures r.st.pos <= |data|
  {
    var t := TagTypeStep(data, s);
    if t.res.Err? then Fail(t)
    else if t.res.value != tag then Step(t.st, Err(TagMismatch(tag, t.res.value)))
    else
      var n := LengthPrefixedStep(data, t.st);
      if n.res.Err? then n
      else if expected.Some? && n.res.value != expected.value then
        Step(n.st, Err(NameMismatch(expected.value, n.res.value)))
      else n
  }

  /** The check every typed read starts with: a header in compound context, a
      comparison with the list's element type in list context. */
  function PrologueStep(data: seq<byte>, s: RState, tag: byte, expected: Option<string>): (r: Step<()>)
    requires s.pos <= |data|
    ensures r.st.pos <= |data|
  {
    if InCompound(s.stack) then
      var h := HeaderStep(data, s, tag, expected);
      if h.res.Err? then Fail(h) else Step(h.st, Ok(()))
    else if s.stack[|s.stack| - 1].tag != tag then Step(s, Err(ListTypeMismatch))
    else Step(s, Ok(()))
  }

  // ---------------------------------------------------------------------------
  // Public reads

  /** readByte/readShort/readInt/readLong: the payload as a signed big-endian integer. */
  function SignedValue(r: Result<seq<byte>>): (v: Result<int>)
    ensures v.Ok? <==> r.Ok?
    ensures v.Ok? ==> v.value == Signed(r.value)
  {
    match r
    case Ok(bs) => Ok(Signed(bs))
    case Err(e) => Err(e)
  }

  /** readFloat/readDouble: the payload as its raw bit pattern. */
  function BitsValue(r: Result<seq<byte>>): (v: Result<nat>)
    ensures v.Ok? <==> r.Ok?
    ensures v.Ok? ==> v.value == BigEndian(r.value)
  {
    match r
    case Ok(bs) => Ok(BigEndian(bs))
    case Err(e) => Err(e)
  }

  /** readByte … readDouble: prologue, `width` payload bytes, elementRead. The
      payload bytes are returned raw; the caller decodes them big-endian. */
  function PrimitiveStep(data: seq<byte>, s: RState, tag: byte, width: nat, expected: Option<string>): (r: Step<seq<byte>>)
    requires s.pos <= |data|
    ensures r.st.pos <= |data|
  {
    var h := PrologueStep(data, s, tag, expected);
    if h.res.Err? then Fail(h)
    else
      var v := ReadN(data, h.st, width);
      if v.res.Err? then Fail(v)
      else Step(v.st.(stack := AfterElementRead(v.st.stack)), Ok(v.res.value))
  }

  /** readString: prologue, int16 length, bytes, elementRead. */
  function StringStep(data: seq<byte>, s: RState, expected: Option<string>): (r: Step<string>)
    requires s.pos <= |data|
    ensures r.st.pos <= |data|
  {
    var h := PrologueStep(data, s, TAG_STRING, expected);
    if h.res.Err? then Fail(h)
    else
      var v := LengthPrefixedStep(data, h.st);
      if v.res.Err? then Fail(v)
      else Step(v.st.(stack := AfterElementRead(v.st.stack)), Ok(v.res.value))
  }

  /** The header of a list or array: read and checked in compound context,
      nothing at all in list context. */
  function CompoundHeaderStep(data: seq<byte>, s: RState, tag: byte, expected: Option<string>): (r: Step<()>)
    requires s.pos <= |data|
    ensures r.st.pos <= |data|
  {
    if InCompound(s.stack) then
      var h := HeaderStep(data, s, tag, expected);
      if h.res.Err? then Fail(h) else Step(h.st, Ok(()))
    else Step(s, Ok(()))
  }

  /** The frame of a list or array just opened: pushed, and at once counted
      as a finished element of its parent when it has no elements. */
  function ListPushed(stack: seq<Frame>, f: Frame): (r: seq<Frame>)
  {
    var pushed := Pushed(stack, f);
    if f.remaining == 0 then AfterElementRead(pushed) else pushed
  }

  /** readListHead: the List header in compound context (nothing is checked
      in list context), then the element type and the int32 count; pushes
      (elementType, count) and, for count 0, runs elementRead at once. */
  function ListHeadStep(data: seq<byte>, s: RState, expected: Option<string>): (r: Step<(byte, int)>)
    requires s.pos <= |data|
    ensures r.st.pos <= |data|
  {
    var h := CompoundHeaderStep(data, s, TAG_LIST, expected);
    if h.res.Err? then Fail(h)
    else
      var et := ReadN(data, h.st, 1);
      if et.res.Err? then Fail(et)
      else
        var n := ReadN(data, et.st, 4);
        if n.res.Err? then Fail(n)
        else
          var elementType := et.res.value[0];
          var size := Signed(n.res.value);
          Step(n.st.(stack := ListPushed(n.st.stack, Frame(elementType, size))), Ok((elementType, size)))
  }

  /** readByteArrayHead / readIntArrayHead / readLongArrayHead: the array
      header in compound context (nothing in list context), the int32 count,
      then a pushed frame whose element type is Byte, Int or Long. */
  function ArrayHeadStep(data: seq<byte>, s: RState, arrayTag: byte, elementTag: byte, expected: Option<string>): (r: Step<int>)
    requires s.pos <= |data|
    ensures r.st.pos <= |data|
  {
    var h := CompoundHeaderStep(data, s, arrayTag, expected);
    if h.res.Err? then Fail(h)
    else
      var n := ReadN(data, h.st, 4);
      if n.res.Err? then Fail(n)
      else
        var size := Signed(n.res.value);
        Step(n.st.(stack := ListPushed(n.st.stack, Frame(elementTag, size))), Ok(size))
  }

  /** enterCompound: a Compound header is read only in compound context and
      only when a name is expected; the frame (End, 0) is always pushed. */
  function EnterStep(data: seq<byte>, s: RState, expected: Option<string>): (r: Step<()>)
    requires s.pos <= |data|
    ensures r.st.pos <= |data|
  {
    if InCompound(s.stack) && expected.Some? then
      var h := HeaderStep(data, s, TAG_COMPOUND, expected);
      if h.res.Err? then Fail(h)
      else Step(h.st.(stack := Pushed(h.st.stack, RootFrame)), Ok(()))
    else Step(s.(stack := Pushed(s.stack, RootFrame)), Ok(()))
  }

  /** exitCompound: only in compound context; the next byte must be End; pops
      the compound's frame and counts the compound as one element of its parent. */
  function ExitStep(data: seq<byte>, s: RState): (r: Step<()>)
    requires s.pos <= |data|
    ensures r.st.pos <= |data|
  {
    if InList(s.stack) then Step(s, Err(NotInCompound))
    else
      var t := TagTypeStep(data, s);
      if t.res.Err? then Fail(t)
      else if t.res.value != TAG_END then Step(t.st, Err(ExpectedEnd))
      else Step(t.st.(stack := AfterElementRead(Popped(t.st.stack))), Ok(()))
  }

  /** peekTagType: reads one byte and seeks back; nothing else changes. A
      failed read sets the failbit without touching ByteCount. */
  function PeekStep(data: seq<byte>, s: RState): (r: Step<byte>)
    requires s.pos <= |data|
    ensures r.st.pos <= |data|
  {
    if s.failed || s.pos + 1 > |data| then Step(s.(pos := |data|, failed := true), Err(Eof))
    else Step(s, Ok(data[s.pos]))
  }

  /** The constructor: three bytes must read 0A 00 00; then the root
      compound's frame is pushed onto the empty stack. */
  function OpenStep(data: seq<byte>): (r: Result<RState>)
    ensures r.Ok? <==> |data| >= 3 && data[0] == TAG_COMPOUND && data[1] == 0 && data[2] == 0
    ensures r.Ok? ==> r.value == RState(3, false, 3, [RootFrame])
    ensures r.Err? ==> r.error == (if |data| < 3 then Eof else BadRoot)
  {
    if |data| < 3 then Err(Eof)
    else if data[..3] != [TAG_COMPOUND, 0, 0] then Err(BadRoot)
    else Ok(RState(3, false, 3, [RootFrame]))
  }

  // ---------------------------------------------------------------------------
  // What each read does

  /** readTagType consumes exactly one byte and yields it; it fails exactly at
      the end of the input or on a failed stream. */
  lemma TagTypeStepFacts(data: seq<byte>, s: RState)
    requires s.pos <= |data|
    ensures var r := TagTypeStep(data, s);
      && r.st.stack == s.stack
      && (r.res.Ok? <==> !s.failed && s.pos < |data|)
      && (r.res.Ok? ==> r.st.pos == s.pos + 1 && r.res.value == data[s.pos] && !r.st.failed)
      && (Synced(s) ==> Synced(r.st))
  {
  }

  /** A length-prefixed string: two length bytes, then exactly that many
      bytes, which are the string read. */
  lemma LengthPrefixedStepFacts(data: seq<byte>, s: RState)
    requires s.pos <= |data|
    ensures var r := LengthPrefixedStep(data, s);
      && r.st.stack == s.stack
      && (Synced(s) ==> Synced(r.st))
      && (r.res.Ok? ==> && !r.st.failed && s.pos + 2 <= r.st.pos
                        && Signed(data[s.pos..s.pos + 2]) == r.st.pos - s.pos - 2
                        && r.res.value == Chars(data[s.pos + 2..r.st.pos]))
  {
  }

  /** A header read succeeds only on the expected type byte followed by a
      length-prefixed name, equal to the expected name when one is given. */
  lemma HeaderStepFacts(data: seq<byte>, s: RState, tag: byte, expected: Option<string>)
    requires s.pos <= |data|
    ensures var r := HeaderStep(data, s, tag, expected);
      && r.st.stack == s.stack
      && (Synced(s) ==> Synced(r.st))
      && (r.res.Ok? ==> && !r.st.failed && s.pos + 3 <= r.st.pos && data[s.pos] == tag
                        && Signed(data[s.pos + 1..s.pos + 3]) == r.st.pos - s.pos - 3
                        && r.res.value == Chars(data[s.pos + 3..r.st.pos]))
      && (r.res.Ok? && expected.Some? ==> r.res.value == expected.value)
  {
    TagTypeStepFacts(data, s);
    var t := TagTypeStep(data, s);
    if t.res.Ok? {
      LengthPrefixedStepFacts(data, t.st);
    }
  }

  /** The prologue of a typed read: in list context it reads nothing and only
      compares the element type; in compound context it reads a header. */
  lemma PrologueStepFacts(data: seq<byte>, s: RState, tag: byte, expected: Option<string>)
    requires s.pos <= |data|
    ensures var r := PrologueStep(data, s, tag, expected);
      && r.st.stack == s.stack
      && (Synced(s) ==> Synced(r.st))
      && (InList(s.stack) ==> r.st == s && (r.res.Ok? <==> s.stack[|s.stack| - 1].tag == tag))
      && (r.res.Ok? && InCompound(s.stack) ==> !r.st.failed && s.pos + 3 <= r.st.pos && data[s.pos] == tag)
  {
    if InCompound(s.stack) {
      HeaderStepFacts(data, s, tag, expected);
    }
  }

  /** A primitive read yields the `width` bytes just before the new cursor and
      counts one element: the stack becomes AfterElementRead of the old one.
      A failed read leaves the stack alone. */
  lemma PrimitiveStepFacts(data: seq<byte>, s: RState, tag: byte, width: nat, expected: Option<string>)
    requires s.pos <= |data|
    ensures var r := PrimitiveStep(data, s, tag, width, expected);
      && (Synced(s) ==> Synced(r.st))
      && (r.res.Ok? ==> && !r.st.failed && s.pos + width <= r.st.pos && |r.res.value| == width
                        && r.res.value == data[r.st.pos - width..r.st.pos]
                        && r.st.stack == AfterElementRead(s.stack))
      && (r.res.Ok? && InList(s.stack) ==> r.st.pos == s.pos + width)
      && (r.res.Err? ==> r.st.stack == s.stack)
  {
    PrologueStepFacts(data, s, tag, expected);
  }

  /** readString: the string's bytes lie between the old and the new cursor
      and one element is counted; a failed read leaves the stack alone. */
  lemma StringStepFacts(data: seq<byte>, s: RState, expected: Option<string>)
    requires s.pos <= |data|
    ensures var r := StringStep(data, s, expected);
      && (Synced(s) ==> Synced(r.st))
      && (r.res.Ok? ==> && !r.st.failed && s.pos + 2 + |r.res.value| <= r.st.pos
                        && r.st.stack == AfterElementRead(s.stack))
      && (r.res.Err? ==> r.st.stack == s.stack)
  {
    PrologueStepFacts(data, s, TAG_STRING, expected);
    var h := PrologueStep(data, s, TAG_STRING, expected);
    if h.res.Ok? {
      LengthPrefixedStepFacts(data, h.st);
    }
  }

  /** v, after its int16 length prefix, occupies the data from offset a on. */
  predicate PrefixedStringAt(data: seq<byte>, a: int, v: string)
  {
    && 0 <= a && a + 2 + |v| <= |data|
    && Signed(data[a..a + 2]) == |v| && v == Chars(data[a + 2..a + 2 + |v|])
  }

  /** The string readString yields is the bytes just before the new cursor,
      preceded by an int16 prefix holding their number; in list context
      nothing else is consumed. */
  lemma StringStepValue(data: seq<byte>, s: RState, expected: Option<string>)
    requires s.pos <= |data|
    ensures var r := StringStep(data, s, expected);
      && (r.res.Ok? ==> PrefixedStringAt(data, r.st.pos - |r.res.value| - 2, r.res.value))
      && (r.res.Ok? && InList(s.stack) ==> r.st.pos == s.pos + 2 + |r.res.value|)
  {
    PrologueStepFacts(data, s, TAG_STRING, expected);
    var h := PrologueStep(data, s, TAG_STRING, expected);
    if h.res.Ok? {
      LengthPrefixedStepAt(data, h.st);
    }
  }

  /** A successful length-prefixed read at s consumes exactly the prefix and
      the string, which sit at s.pos. */
  lemma LengthPrefixedStepAt(data: seq<byte>, s: RState)
    requires s.pos <= |data|
    ensures var r := LengthPrefixedStep(data, s);
      r.res.Ok? ==> r.st.pos == s.pos + 2 + |r.res.value| && PrefixedStringAt(data, s.pos, r.res.value)
  {
    LengthPrefixedStepFacts(data, s);
  }

  /** The header of a list or array is absent in list context. */
  lemma CompoundHeaderStepFacts(data: seq<byte>, s: RState, tag: byte, expected: Option<string>)
    requires s.pos <= |data|
    ensures var r := CompoundHeaderStep(data, s, tag, expected);
      && r.st.stack == s.stack
      && (Synced(s) ==> Synced(r.st))
      && (InList(s.stack) ==> r == Step(s, Ok(())))
      && (r.res.Ok? && InCompound(s.stack) ==> !r.st.failed && s.pos + 3 <= r.st.pos && data[s.pos] == tag)
      && (r.res.Ok? ==> !r.st.failed || s.failed)
  {
    if InCompound(s.stack) {
      HeaderStepFacts(data, s, tag, expected);
    }
  }

  /** readListHead yields the element-type byte and the int32 count that end
      at the new cursor, and pushes the frame for them. */
  lemma ListHeadStepFacts(data: seq<byte>, s: RState, expected: Option<string>)
    requires s.pos <= |data|
    ensures var r := ListHeadStep(data, s, expected);
      && (Synced(s) ==> Synced(r.st))
      && (r.res.Ok? ==> && !r.st.failed && s.pos + 5 <= r.st.pos
                        && r.res.value.0 == data[r.st.pos - 5]
                        && r.res.value.1 == Signed(data[r.st.pos - 4..r.st.pos])
                        && r.st.stack == ListPushed(s.stack, Frame(r.res.value.0, r.res.value.1)))
      && (r.res.Err? ==> r.st.stack == s.stack)
  {
    CompoundHeaderStepFacts(data, s, TAG_LIST, expected);
    ListHeadValueFacts(data, s, expected);
  }

  /** The values of a successful list head, read from the five bytes before
      the new cursor. */
  lemma ListHeadValueFacts(data: seq<byte>, s: RState, expected: Option<string>)
    requires s.pos <= |data|
    ensures var r := ListHeadStep(data, s, expected);
      r.res.Ok? ==> && s.pos + 5 <= r.st.pos
                    && r.res.value.0 == data[r.st.pos - 5]
                    && r.res.value.1 == Signed(data[r.st.pos - 4..r.st.pos])
  {
    CompoundHeaderStepFacts(data, s, TAG_LIST, expected);
  }

  /** An array head yields the int32 count ending at the new cursor and
      pushes a frame of the array's element type. */
  lemma ArrayHeadStepFacts(data: seq<byte>, s: RState, arrayTag: byte, elementTag: byte, expected: Option<string>)
    requires s.pos <= |data|
    ensures var r := ArrayHeadStep(data, s, arrayTag, elementTag, expected);
      && (Synced(s) ==> Synced(r.st))
      && (r.res.Ok? ==> && !r.st.failed && s.pos + 4 <= r.st.pos
                        && r.res.value == Signed(data[r.st.pos - 4..r.st.pos])
                        && r.st.stack == ListPushed(s.stack, Frame(elementTag, r.res.value)))
      && (r.res.Err? ==> r.st.stack == s.stack)
  {
    CompoundHeaderStepFacts(data, s, arrayTag, expected);
    var h := CompoundHeaderStep(data, s, arrayTag, expected);
    if h.res.Ok? {
      var n := ReadN(data, h.st, 4);
      assert n.res.Ok? ==> n.st.pos - 4 == h.st.pos && n.res.value == data[n.st.pos - 4..n.st.pos];
    }
  }

  /** enterCompound pushes the compound frame; without an expected name (or
      in list context) it reads nothing at all. */
  lemma EnterStepFacts(data: seq<byte>, s: RState, expected: Option<string>)
    requires s.pos <= |data|
    ensures var r := EnterStep(data, s, expected);
      && (Synced(s) ==> Synced(r.st))
      && (r.res.Ok? ==> r.st.stack == Pushed(s.stack, RootFrame))
      && (r.res.Err? ==> r.st.stack == s.stack)
      && (!(InCompound(s.stack) && expected.Some?) ==> r == Step(s.(stack := Pushed(s.stack, RootFrame)), Ok(())))
  {
    if InCompound(s.stack) && expected.Some? {
      HeaderStepFacts(data, s, TAG_COMPOUND, expected);
    }
  }

  /** exitCompound succeeds exactly in compound context on an End byte; it
      consumes that byte, pops the compound and counts it as an element. */
  lemma ExitStepFacts(data: seq<byte>, s: RState)
    requires s.pos <= |data|
    ensures var r := ExitStep(data, s);
      && (Synced(s) ==> Synced(r.st))
      && (r.res.Ok? <==> InCompound(s.stack) && !s.failed && s.pos < |data| && data[s.pos] == TAG_END)
      && (r.res.Ok? ==> r.st.pos == s.pos + 1 && r.st.stack == AfterElementRead(Popped(s.stack)))
      && (r.res.Err? ==> r.st.stack == s.stack)
  {
    if InCompound(s.stack) {
      TagTypeStepFacts(data, s);
    }
  }

  /** peekTagType yields the next byte and leaves the whole state as it was. */
  lemma PeekStepFacts(data: seq<byte>, s: RState)
    requires s.pos <= |data|
    ensures var r := PeekStep(data, s);
      && r.st.stack == s.stack && r.st.byteCount == s.byteCount
      && (r.res.Ok? <==> !s.failed && s.pos < |data|)
      && (r.res.Ok? ==> r.st == s && r.res.value == data[s.pos])
  {
  }

  /** Peeking twice yields the same byte as peeking once, and the state does
      not move: a peek followed by a read of the type sees the same tag. */
  lemma PeekThenRead(data: seq<byte>, s: RState)
    requires s.pos <= |data|
    ensures var p := PeekStep(data, s);
      p.res.Ok? ==> && PeekStep(data, p.st) == p
                    && TagTypeStep(data, p.st).res == p.res
  {
    PeekStepFacts(data, s);
    var p := PeekStep(data, s);
    if p.res.Ok? {
      TagTypeStepFacts(data, p.st);
    }
  }

  // ---------------------------------------------------------------------------
  // Skipping (positions only; ByteCount follows the cursor)

  /** A relative seek of n bytes; a seek past the end fails. */
  function Seek(data: seq<byte>, p: nat, n: nat): (r: Result<nat>)
    ensures r.Ok? <==> p + n <= |data|
    ensures r.Ok? ==> r.value == p + n
  {
    if p + n > |data| then Err(Eof) else Ok(p + n)
  }

  /** skipTag(t) at offset p: the offset just past t's payload. Fixed-width
      payloads are seeked over; String and the arrays seek over as many bytes
      as their length prefix says; a List skips its elements one by one and a
      Compound its members until End; End and unknown tags fail. A negative
      length or count is refused (see ReaderProps.SkipStringAsWritten and
      ReaderProps.SkipArrayAsWritten). */
  function SkipPayload(data: seq<byte>, p: nat, t: byte): (r: Result<nat>)
    requires p <= |data|
    ensures r.Ok? ==> p < r.value <= |data|
    decreases |data| - p, 2
  {
    if t == TAG_BYTE then Seek(data, p, 1)
    else if t == TAG_SHORT then Seek(data, p, 2)
    else if t == TAG_INT || t == TAG_FLOAT then Seek(data, p, 4)
    else if t == TAG_LONG || t == TAG_DOUBLE then Seek(data, p, 8)
    else if t == TAG_STRING then
      if p + 2 > |data| then Err(Eof)
      else
        var len := Signed(data[p..p + 2]);
        if len < 0 then Err(NegativeLength) else Seek(data, p + 2, len)
    else if t == TAG_BYTE_ARRAY || t == TAG_INT_ARRAY || t == TAG_LONG_ARRAY then
      if p + 4 > |data| then Err(Eof)
      else
        var count := Signed(data[p..p + 4]);
        var width := if t == TAG_BYTE_ARRAY then 1 else if t == TAG_INT_ARRAY then 4 else 8;
        if count < 0 then Err(NegativeLength) else Seek(data, p + 4, count * width)
    else if t == TAG_LIST then
      if p + 5 > |data| then Err(Eof)
      else SkipElements(data, p + 5, data[p], Signed(data[p + 1..p + 5]))
    else if t == TAG_COMPOUND then SkipMembers(data, p)
    else Err(UnknownTag(t))
  }

  /** The `count` headerless elements of a list, skipped in turn. */
  function SkipElements(data: seq<byte>, q: nat, t: byte, count: int): (r: Result<nat>)
    requires q <= |data|
    ensures r.Ok? ==> q <= r.value <= |data|
    ensures r.Ok? && count > 0 ==> q < r.value
    decreases |data| - q, 3
  {
    if count <= 0 then Ok(q)
    else
      match SkipPayload(data, q, t)
      case Err(e) => Err(e)
      case Ok(q') => SkipElements(data, q', t, count - 1)
  }

  /** The members of a compound up to and including its End byte. */
  function SkipMembers(data: seq<byte>, q: nat): (r: Result<nat>)
    requires q <= |data|
    ensures r.Ok? ==> q < r.value <= |data|
    decreases |data| - q, 1
  {
    if q + 1 > |data| then Err(Eof)
    else if data[q] == TAG_END then Ok(q + 1)
    else
      match SkipNamed(data, q)
      case Err(e) => Err(e)
      case Ok(q') => SkipMembers(data, q')
  }

  /** One named tag: readTagType, readTagName, skipTag(type). */
  function SkipNamed(data: seq<byte>, q: nat): (r: Result<nat>)
    requires q <= |data|
    ensures r.Ok? ==> q + 3 < r.value <= |data|
    decreases |data| - q, 0
  {
    if q + 3 > |data| then Err(Eof)
    else
      var len := Signed(data[q + 1..q + 3]);
      if len < 0 then Err(NegativeLength)
      else if q + 3 + len > |data| then Err(Eof)
      else SkipPayload(data, q + 3 + len, data[q])
  }

  /** skipCurrentTag: a whole named tag in compound context; in list context
      the next element of the list, followed by elementRead. Yields the new
      cursor and the new stack. */
  function SkipCurrentSpec(data: seq<byte>, p: nat, stack: seq<Frame>): (r: Result<(nat, seq<Frame>)>)
    requires p <= |data|
    ensures r.Ok? ==> p < r.value.0 <= |data|
    ensures r.Ok? ==> r.value.1 == if InCompound(stack) then stack else AfterElementRead(stack)
  {
    if InCompound(stack) then
      match SkipNamed(data, p)
      case Err(e) => Err(e)
      case Ok(q) => Ok((q, stack))
    else
      match SkipPayload(data, p, stack[|stack| - 1].tag)
      case Err(e) => Err(e)
      case Ok(q) => Ok((q, AfterElementRead(stack)))
  }
}
