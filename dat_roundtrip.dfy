/** What parse_servers_dat reads back from a well-formed servers.dat: the
    file the converter writes for a list of entries (a root compound holding
    the list "servers" of compounds, each with the tags name, icon, ip and
    acceptTextures in that order) parses to exactly the entries that have a
    name and an ip. The encoder below is used only to state this. */
module DatRoundTrip {
  import opened Wire
  import opened ReaderSpec
  import opened Servers
  import opened ParseDat

  /** A string the file format can hold: bytes only, and a length that fits
      the int16 length prefix. */
  predicate Encodable(s: string)
  {
    IsByteString(s) && |s| < 0x8000
  }

  predicate EncodableServer(x: Server)
  {
    Encodable(x.icon) && Encodable(x.ip) && Encodable(x.name)
  }

  /** A tag name or a string payload: int16 length, then the bytes. */
  function LengthPrefixed(s: string): (bs: seq<byte>)
    requires Encodable(s)
    ensures |bs| == 2 + |s|
  {
    var prefix := Int16Bytes(|s|);
    var payload := Bytes(s);
    assert |payload| == |s|;
    prefix + payload
  }

  function NamedString(name: string, v: string): (bs: seq<byte>)
    requires Encodable(name) && Encodable(v)
    ensures |bs| == 5 + |name| + |v|
  {
    [TAG_STRING] + LengthPrefixed(name) + LengthPrefixed(v)
  }

  function NamedByte(name: string, b: byte): (bs: seq<byte>)
    requires Encodable(name)
    ensures |bs| == 4 + |name|
  {
    [TAG_BYTE] + LengthPrefixed(name) + [b]
  }

  /** The four named tags of one entry, in the order the converter writes them. */
  function ServerTags(x: Server): (bs: seq<byte>)
    requires EncodableServer(x)
  {
    NamedString("name", x.name) + NamedString("icon", x.icon) + NamedString("ip", x.ip)
      + NamedByte("acceptTextures", if x.acceptTextures then 1 else 0)
  }

  /** One element of the list: a headerless compound holding the four tags. */
  function EncodeServer(x: Server): (bs: seq<byte>)
    requires EncodableServer(x)
  {
    ServerTags(x) + [TAG_END]
  }

  function EncodeServers(xs: seq<Server>): (bs: seq<byte>)
    requires forall i :: 0 <= i < |xs| ==> EncodableServer(xs[i])
  {
    if xs == [] then [] else EncodeServer(xs[0]) + EncodeServers(xs[1..])
  }

  /** The whole file: root header, the list head "servers" of compounds with
      its count, the elements, and the root compound's End. */
  function EncodeServersDat(xs: seq<Server>): (bs: seq<byte>)
    requires |xs| < 0x8000_0000
    requires forall i :: 0 <= i < |xs| ==> EncodableServer(xs[i])
  {
    [TAG_COMPOUND, 0, 0]
      + ([TAG_LIST] + (LengthPrefixed("servers") + ([TAG_COMPOUND] + Int32Bytes(|xs|)))
      + (EncodeServers(xs) + [TAG_END]))
  }

  /** The entries parse_servers_dat keeps, in order. */
  function Kept(xs: seq<Server>): (ys: seq<Server>)
    ensures |ys| <= |xs|
    ensures forall i :: 0 <= i < |ys| ==> HasRequiredFields(ys[i])
  {
    if xs == [] then []
    else (if HasRequiredFields(xs[0]) then [xs[0]] else []) + Kept(xs[1..])
  }

  /** A reader state that has read exactly the first p bytes, without error. */
  function Clean(p: nat, stack: seq<Frame>): RState
  {
    RState(p, false, p, stack)
  }

  /** The stack while k elements of the servers list are still to come. */
  function ListFrames(k: int): seq<Frame>
  {
    if k <= 0 then [RootFrame] else [RootFrame, Frame(TAG_COMPOUND, k)]
  }

  // ---------------------------------------------------------------------------
  // Reading encoded pieces

  lemma ReadAt(data: seq<byte>, s: RState, bs: seq<byte>)
    requires s.pos <= |data| && !s.failed && At(data, s.pos, bs)
    ensures ReadN(data, s, |bs|)
         == Step(RState(s.pos + |bs|, false, s.byteCount + |bs|, s.stack), Ok(bs))
  {
    AtSlice(data, s.pos, bs);
    var r := ReadN(data, s, |bs|);
    assert r.res.Ok?;
    assert r.st == RState(s.pos + |bs|, false, s.byteCount + |bs|, s.stack);
    assert r.res.value == bs;
  }

  lemma LengthPrefixedAt(data: seq<byte>, p: nat, stack: seq<Frame>, v: string)
    requires Encodable(v) && At(data, p, LengthPrefixed(v))
    ensures LengthPrefixedStep(data, Clean(p, stack)) == Step(Clean(p + 2 + |v|, stack), Ok(v))
  {
    AtConcat(data, p, Int16Bytes(|v|), Bytes(v));
    ReadAt(data, Clean(p, stack), Int16Bytes(|v|));
    ReadAt(data, Clean(p + 2, stack), Bytes(v));
    CharsOfBytes(v);
  }

  /** The header of a named tag of the expected type and name. */
  lemma {:induction false} HeaderAt(data: seq<byte>, p: nat, stack: seq<Frame>, tag: byte, name: string)
    requires Encodable(name) && At(data, p, [tag] + LengthPrefixed(name))
    ensures HeaderStep(data, Clean(p, stack), tag, Some(name))
         == Step(Clean(p + 3 + |name|, stack), Ok(name))
  {
    AtConcat(data, p, [tag], LengthPrefixed(name));
    ReadAt(data, Clean(p, stack), [tag]);
    assert TagTypeStep(data, Clean(p, stack)) == Step(Clean(p + 1, stack), Ok(tag));
    LengthPrefixedAt(data, p + 1, stack, name);
  }

  /** The check of a typed read in compound context, on a header of the
      expected type and name. */
  lemma {:induction false} PrologueAt(data: seq<byte>, p: nat, stack: seq<Frame>, tag: byte, name: string)
    requires Encodable(name) && InCompound(stack) && At(data, p, [tag] + LengthPrefixed(name))
    ensures PrologueStep(data, Clean(p, stack), tag, Some(name))
         == Step(Clean(p + 3 + |name|, stack), Ok(()))
  {
    HeaderAt(data, p, stack, tag, name);
  }

  /** readString(name) in compound context on a tag of the expected name
      yields its value and moves to q, just past it; the stack is untouched. */
  lemma {:induction false} NamedStringAt(data: seq<byte>, p: nat, q: nat, stack: seq<Frame>, name: string, v: string)
    requires Encodable(name) && Encodable(v) && InCompound(stack)
    requires At(data, p, NamedString(name, v)) && q == p + |NamedString(name, v)|
    ensures StringStep(data, Clean(p, stack), Some(name)) == Step(Clean(q, stack), Ok(v))
  {
    var head := [TAG_STRING] + LengthPrefixed(name);
    AtConcat(data, p, head, LengthPrefixed(v));
    PrologueAt(data, p, stack, TAG_STRING, name);
    LengthPrefixedAt(data, p + |head|, stack, v);
    AfterElementReadShape(stack);
  }

  /** readByte(name) in compound context on a tag of the expected name. */
  lemma {:induction false} NamedByteAt(data: seq<byte>, p: nat, q: nat, stack: seq<Frame>, name: string, b: byte)
    requires Encodable(name) && InCompound(stack)
    requires At(data, p, NamedByte(name, b)) && q == p + |NamedByte(name, b)|
    ensures PrimitiveStep(data, Clean(p, stack), TAG_BYTE, 1, Some(name)) == Step(Clean(q, stack), Ok([b]))
  {
    var head := [TAG_BYTE] + LengthPrefixed(name);
    AtConcat(data, p, head, [b]);
    PrologueAt(data, p, stack, TAG_BYTE, name);
    ReadAt(data, Clean(p + |head|, stack), [b]);
    AfterElementReadShape(stack);
  }

  /** Finishing one element counts the list down; the last one pops it. */
  lemma ListCountDown(k: int)
    requires k >= 1
    ensures AfterElementRead(ListFrames(k)) == ListFrames(k - 1)
  {
    var s := ListFrames(k);
    assert s == [RootFrame, Frame(TAG_COMPOUND, k)] && InList(s) && !ListFinished(s);
    var s1 := DecrementTop(s);
    assert s1 == [RootFrame, Frame(TAG_COMPOUND, k - 1)];
    if k == 1 {
      assert InList(s1) && ListFinished(s1);
      assert AfterElementRead(s) == EndListFrames(s1);
      assert Popped(s1) == [RootFrame];
      assert EndListFrames(s1) == AfterElementRead([RootFrame]);
      AfterElementReadShape([RootFrame]);
    } else {
      assert !ListFinished(s1);
    }
  }

  /** readListHead on a list of n elements leaves the frame of the list, or,
      for an empty list, pops it at once. */
  lemma ListOpened(n: int)
    requires n >= 0
    ensures ListPushed([RootFrame], Frame(TAG_COMPOUND, n)) == ListFrames(n)
  {
    if n > 0 {
      assert Pushed([RootFrame], Frame(TAG_COMPOUND, n)) == [RootFrame, Frame(TAG_COMPOUND, n)];
    } else {
      var pushed := [RootFrame, Frame(TAG_COMPOUND, 0)];
      assert Pushed([RootFrame], Frame(TAG_COMPOUND, 0)) == pushed;
      assert AfterElementRead(pushed) == EndListFrames(pushed);
      assert Popped(pushed) == [RootFrame];
      AfterElementReadShape([RootFrame]);
    }
  }

  /** The inner try block when each of its four reads succeeds. */
  lemma ReadFieldsOk(data: seq<byte>, s0: RState, s1: RState, s2: RState, s3: RState, s4: RState, x: Server, b: byte)
    requires s0.pos <= |data| && s1.pos <= |data| && s2.pos <= |data| && s3.pos <= |data|
    requires StringStep(data, s0, Some("name")) == Step(s1, Ok(x.name))
    requires StringStep(data, s1, Some("icon")) == Step(s2, Ok(x.icon))
    requires StringStep(data, s2, Some("ip")) == Step(s3, Ok(x.ip))
    requires PrimitiveStep(data, s3, TAG_BYTE, 1, Some("acceptTextures")) == Step(s4, Ok([b]))
    requires x.acceptTextures <==> b != 0
    ensures ReadFields(data, s0) == Fields(s4, x, true)
  {
    assert BigEndian([b]) == b as nat by {
      assert [b][..0] == [];
    }
  }

  /** The tag names of an entry fit the format. */
  lemma KeysEncodable()
    ensures Encodable("name") && Encodable("icon") && Encodable("ip") && Encodable("acceptTextures")
  {
  }

  /** The four tags of an entry lie one after the other, from p1 to p5. */
  lemma ServerTagsAt(data: seq<byte>, x: Server, p1: nat, p2: nat, p3: nat, p4: nat, p5: nat)
    requires EncodableServer(x) && At(data, p1, ServerTags(x))
    requires p2 == p1 + |NamedString("name", x.name)| && p3 == p2 + |NamedString("icon", x.icon)|
    requires p4 == p3 + |NamedString("ip", x.ip)|
    requires p5 == p4 + |NamedByte("acceptTextures", if x.acceptTextures then 1 else 0)|
    ensures At(data, p1, NamedString("name", x.name)) && At(data, p2, NamedString("icon", x.icon))
    ensures At(data, p3, NamedString("ip", x.ip))
    ensures At(data, p4, NamedByte("acceptTextures", if x.acceptTextures then 1 else 0))
    ensures p5 == p1 + |ServerTags(x)|
  {
    var e1 := NamedString("name", x.name);
    var e2 := NamedString("icon", x.icon);
    var e3 := NamedString("ip", x.ip);
    var e4 := NamedByte("acceptTextures", if x.acceptTextures then 1 else 0);
    AtConcat(data, p1, e1 + e2 + e3, e4);
    AtConcat(data, p1, e1 + e2, e3);
    AtConcat(data, p1, e1, e2);
  }

  /** The inner try block on the four tags of an entry reads the entry back. */
  lemma {:induction false} FieldsAt(data: seq<byte>, p: nat, q: nat, stack: seq<Frame>, x: Server)
    requires EncodableServer(x) && InCompound(stack)
    requires At(data, p, ServerTags(x)) && q == p + |ServerTags(x)|
    ensures ReadFields(data, Clean(p, stack)) == Fields(Clean(q, stack), x, true)
  {
    var b: byte := if x.acceptTextures then 1 else 0;
    var p2: nat := p + |NamedString("name", x.name)|;
    var p3: nat := p2 + |NamedString("icon", x.icon)|;
    var p4: nat := p3 + |NamedString("ip", x.ip)|;
    KeysEncodable();
    ServerTagsAt(data, x, p, p2, p3, p4, q);
    NamedStringAt(data, p, p2, stack, "name", x.name);
    NamedStringAt(data, p2, p3, stack, "icon", x.icon);
    NamedStringAt(data, p3, p4, stack, "ip", x.ip);
    NamedByteAt(data, p4, q, stack, "acceptTextures", b);
    ReadFieldsOk(data, Clean(p, stack), Clean(p2, stack), Clean(p3, stack), Clean(p4, stack),
                 Clean(q, stack), x, b);
  }

  /** enterCompound() with no name, inside the list: only a frame is pushed. */
  lemma EnterAt(data: seq<byte>, p: nat, k: int)
    requires p <= |data|
    ensures EnterStep(data, Clean(p, ListFrames(k)), None) == Step(Clean(p, ListFrames(k) + [RootFrame]), Ok(()))
  {
  }

  /** exitCompound() on the End of an element: pops the element's frame and
      counts it as one element of the list. */
  lemma {:induction false} ExitAt(data: seq<byte>, q: nat, q1: nat, k: int)
    requires k >= 1 && At(data, q, [TAG_END]) && q1 == q + 1
    ensures ExitStep(data, Clean(q, ListFrames(k) + [RootFrame])) == Step(Clean(q1, ListFrames(k - 1)), Ok(()))
  {
    var inner := ListFrames(k) + [RootFrame];
    ReadAt(data, Clean(q, inner), [TAG_END]);
    assert Popped(inner) == ListFrames(k);
    ListCountDown(k);
  }

  /** One iteration of the loop when enterCompound, the four reads and
      exitCompound all succeed. */
  lemma RecordStepOk(data: seq<byte>, s0: RState, s1: RState, s2: RState, s3: RState, x: Server)
    requires s0.pos <= |data| && s1.pos <= |data| && s2.pos <= |data|
    requires EnterStep(data, s0, None) == Step(s1, Ok(()))
    requires ReadFields(data, s1) == Fields(s2, x, true)
    requires ExitStep(data, s2) == Step(s3, Ok(()))
    ensures RecordStep(data, s0) == Step(s3, Ok(if HasRequiredFields(x) then Some(x) else None))
  {
  }

  /** One encoded element, read by one iteration of the loop. */
  lemma {:induction false} RecordAt(data: seq<byte>, p: nat, q: nat, x: Server, k: int)
    requires EncodableServer(x) && k >= 1
    requires At(data, p, EncodeServer(x)) && q == p + |EncodeServer(x)|
    ensures RecordStep(data, Clean(p, ListFrames(k)))
         == Step(Clean(q, ListFrames(k - 1)), Ok(if HasRequiredFields(x) then Some(x) else None))
  {
    var inner := ListFrames(k) + [RootFrame];
    var m: nat := p + |ServerTags(x)|;
    AtConcat(data, p, ServerTags(x), [TAG_END]);
    ExitAt(data, m, q, k);
    EnterAt(data, p, k);
    FieldsAt(data, p, m, inner, x);
    RecordStepOk(data, Clean(p, ListFrames(k)), Clean(p, inner), Clean(m, inner), Clean(q, ListFrames(k - 1)), x);
  }

  /** The remaining iterations after one that succeeds. */
  lemma RecordsStepOk(data: seq<byte>, s0: RState, s1: RState, n: int, o: Option<Server>, rest: seq<Server>)
    requires s0.pos <= |data| && s1.pos <= |data| && n > 0
    requires RecordStep(data, s0) == Step(s1, Ok(o))
    requires ReadRecords(data, s1, n - 1) == Ok(rest)
    ensures ReadRecords(data, s0, n) == Ok(OptionSeq(o) + rest)
  {
    assert ReadRecords(data, s0, n) == RecordThenRest(data, s0, n - 1);
  }

  /** The remaining elements of the list, read by the remaining iterations. */
  lemma {:induction false} RecordsAt(data: seq<byte>, p: nat, ys: seq<Server>)
    requires forall i :: 0 <= i < |ys| ==> EncodableServer(ys[i])
    requires At(data, p, EncodeServers(ys))
    ensures ReadRecords(data, Clean(p, ListFrames(|ys|)), |ys|) == Ok(Kept(ys))
    decreases |ys|
  {
    if ys == [] {
      AtSlice(data, p, []);
    } else {
      var y, rest := ys[0], ys[1..];
      var q: nat := p + |EncodeServer(y)|;
      AtConcat(data, p, EncodeServer(y), EncodeServers(rest));
      RecordsAt(data, q, rest);
      RecordAt(data, p, q, y, |ys|);
      RecordsStepOk(data, Clean(p, ListFrames(|ys|)), Clean(q, ListFrames(|ys| - 1)), |ys|,
                    if HasRequiredFields(y) then Some(y) else None, Kept(rest));
    }
  }

  /** The head of the list "servers" of n compounds, right after the root
      header: the list's frame is pushed (or popped at once when n is 0). */
  lemma {:induction false} ListHeadAt(data: seq<byte>, n: int)
    requires 0 <= n < 0x8000_0000
    requires At(data, 3, [TAG_LIST] + (LengthPrefixed("servers") + ([TAG_COMPOUND] + Int32Bytes(n))))
    ensures ListHeadStep(data, Clean(3, [RootFrame]), Some("servers"))
         == Step(Clean(18, ListFrames(n)), Ok((TAG_COMPOUND, n)))
  {
    assert Encodable("servers");
    AtConcat(data, 3, [TAG_LIST], LengthPrefixed("servers") + ([TAG_COMPOUND] + Int32Bytes(n)));
    AtConcat(data, 4, LengthPrefixed("servers"), [TAG_COMPOUND] + Int32Bytes(n));
    AtConcat(data, 13, [TAG_COMPOUND], Int32Bytes(n));
    HeaderAt(data, 3, [RootFrame], TAG_LIST, "servers");
    ReadAt(data, Clean(13, [RootFrame]), [TAG_COMPOUND]);
    ReadAt(data, Clean(14, [RootFrame]), Int32Bytes(n));
    ListOpened(n);
  }

  /** The round trip: the servers.dat written for `xs` reads back as the
      entries of `xs` that have a name and an ip, in order. */
  lemma {:induction false} ParseEncodedServersDat(xs: seq<Server>)
    requires |xs| < 0x8000_0000
    requires forall i :: 0 <= i < |xs| ==> EncodableServer(xs[i])
    ensures ParseServersDatSpec(EncodeServersDat(xs)) == Kept(xs)
  {
    var data := EncodeServersDat(xs);
    var head := [TAG_LIST] + (LengthPrefixed("servers") + ([TAG_COMPOUND] + Int32Bytes(|xs|)));
    var body := EncodeServers(xs) + [TAG_END];
    AtSlice(data, 0, data);
    AtConcat(data, 0, [TAG_COMPOUND, 0, 0], head + body);
    AtSlice(data, 0, [TAG_COMPOUND, 0, 0]);
    AtConcat(data, 3, head, body);
    assert |head| == 15;
    AtConcat(data, 18, EncodeServers(xs), [TAG_END]);
    ListHeadAt(data, |xs|);
    RecordsAt(data, 18, xs);
  }

  // ---------------------------------------------------------------------------
  // Skipping encoded pieces

  /** An encoded length prefix holds the string's length, and the string fits
      in the data. */
  lemma LengthPrefixedSkip(data: seq<byte>, p: nat, v: string)
    requires Encodable(v) && At(data, p, LengthPrefixed(v))
    ensures p + 2 + |v| <= |data| && Signed(data[p..p + 2]) == |v|
  {
    LengthPrefixedAt(data, p, [], v);
    LengthPrefixedStepFacts(data, Clean(p, []));
  }

  /** skipTag over a named String tag (type, name, value) lands just past it. */
  lemma {:induction false} SkipNamedStringAt(data: seq<byte>, p: nat, q: nat, name: string, v: string)
    requires Encodable(name) && Encodable(v)
    requires At(data, p, NamedString(name, v)) && q == p + |NamedString(name, v)|
    ensures data[p] == TAG_STRING && SkipNamed(data, p) == Ok(q)
  {
    var head := [TAG_STRING] + LengthPrefixed(name);
    AtConcat(data, p, head, LengthPrefixed(v));
    AtConcat(data, p, [TAG_STRING], LengthPrefixed(name));
    AtSlice(data, p, [TAG_STRING]);
    assert data[p..p + 1] == [TAG_STRING];
    LengthPrefixedSkip(data, p + 1, name);
    LengthPrefixedSkip(data, p + 3 + |name|, v);
  }

  /** skipTag over a named Byte tag lands just past it. */
  lemma {:induction false} SkipNamedByteAt(data: seq<byte>, p: nat, q: nat, name: string, b: byte)
    requires Encodable(name)
    requires At(data, p, NamedByte(name, b)) && q == p + |NamedByte(name, b)|
    ensures data[p] == TAG_BYTE && SkipNamed(data, p) == Ok(q)
  {
    var head := [TAG_BYTE] + LengthPrefixed(name);
    AtConcat(data, p, head, [b]);
    AtConcat(data, p, [TAG_BYTE], LengthPrefixed(name));
    AtSlice(data, p, [TAG_BYTE]);
    assert data[p..p + 1] == [TAG_BYTE];
    AtSlice(data, p + |head|, [b]);
    LengthPrefixedSkip(data, p + 1, name);
  }

  /** Skipping the members of an encoded entry, up to and including its End,
      lands exactly at the end of the entry. */
  lemma {:induction false} SkipServerAt(data: seq<byte>, p: nat, q: nat, x: Server)
    requires EncodableServer(x)
    requires At(data, p, EncodeServer(x)) && q == p + |EncodeServer(x)|
    ensures SkipMembers(data, p) == Ok(q)
  {
    var b: byte := if x.acceptTextures then 1 else 0;
    var p2: nat := p + |NamedString("name", x.name)|;
    var p3: nat := p2 + |NamedString("icon", x.icon)|;
    var p4: nat := p3 + |NamedString("ip", x.ip)|;
    var m: nat := p + |ServerTags(x)|;
    KeysEncodable();
    AtConcat(data, p, ServerTags(x), [TAG_END]);
    ServerTagsAt(data, x, p, p2, p3, p4, m);
    AtSlice(data, m, [TAG_END]);
    assert data[m..m + 1] == [TAG_END];
    assert SkipMembers(data, m) == Ok(q);
    SkipNamedByteAt(data, p4, m, "acceptTextures", b);
    assert SkipMembers(data, p4) == Ok(q);
    SkipNamedStringAt(data, p3, p4, "ip", x.ip);
    assert SkipMembers(data, p3) == Ok(q);
    SkipNamedStringAt(data, p2, p3, "icon", x.icon);
    assert SkipMembers(data, p2) == Ok(q);
    SkipNamedStringAt(data, p, p2, "name", x.name);
  }

  /** skipCurrentTag on an encoded entry of the servers list ends where one
      iteration of the reading loop ends: the same cursor, and the entry
      counted in the list the same way. */
  lemma {:induction false} SkipServerMatchesRead(data: seq<byte>, p: nat, q: nat, x: Server, k: int)
    requires EncodableServer(x) && k >= 1
    requires At(data, p, EncodeServer(x)) && q == p + |EncodeServer(x)|
    ensures SkipCurrentSpec(data, p, ListFrames(k)) == Ok((q, ListFrames(k - 1)))
    ensures RecordStep(data, Clean(p, ListFrames(k))).st == Clean(q, ListFrames(k - 1))
  {
    SkipServerAt(data, p, q, x);
    AtSlice(data, p, EncodeServer(x));
    assert SkipPayload(data, p, TAG_COMPOUND) == Ok(q);
    ListCountDown(k);
    RecordAt(data, p, q, x, k);
  }
}
