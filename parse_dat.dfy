/** parse_servers_dat: the server list of a servers.dat file, read with the
    streaming NBT reader. The file is a root compound holding a list named
    "servers" whose elements are compounds with the string tags name, icon
    and ip and the byte tag acceptTextures. */
module ParseDat {
  import opened Wire
  import opened ReaderSpec
  import opened NBTReader
  import opened Servers

  /** The outcome of the inner try block of one entry: the state after it, the
      fields assigned before an exception (if any), and whether none was thrown. */
  datatype Fields = Fields(st: RState, server: Server, valid: bool)

  /** The four reads of one entry, in file order: name, icon, ip and
      acceptTextures, each expecting its name. The first one that throws ends
      the block and leaves the fields read so far. */
  function ReadFields(data: seq<byte>, s: RState): (f: Fields)
    requires s.pos <= |data|
    ensures f.st.pos <= |data|
  {
    var name := StringStep(data, s, Some("name"));
    if name.res.Err? then Fields(name.st, Server("", "", "", false), false)
    else
      var icon := StringStep(data, name.st, Some("icon"));
      if icon.res.Err? then Fields(icon.st, Server("", "", name.res.value, false), false)
      else
        var ip := StringStep(data, icon.st, Some("ip"));
        if ip.res.Err? then Fields(ip.st, Server(icon.res.value, "", name.res.value, false), false)
        else
          var accept := PrimitiveStep(data, ip.st, TAG_BYTE, 1, Some("acceptTextures"));
          if accept.res.Err? then Fields(accept.st, Server(icon.res.value, ip.res.value, name.res.value, false), false)
          else Fields(accept.st, Server(icon.res.value, ip.res.value, name.res.value, Signed(accept.res.value) != 0), true)
  }

  /** One iteration of the loop: enterCompound() (no name expected, so no
      header is read), the four reads, exitCompound(). An exception from
      exitCompound aborts the whole parse. The entry is kept only when no read
      threw and both its name and its ip are non-empty. */
  function RecordStep(data: seq<byte>, s: RState): (r: Step<Option<Server>>)
    requires s.pos <= |data|
    ensures r.st.pos <= |data|
    ensures r.res.Ok? && r.res.value.Some? ==> HasRequiredFields(r.res.value.value)
  {
    var e := EnterStep(data, s, None);
    var f := ReadFields(data, e.st);
    var x := ExitStep(data, f.st);
    if x.res.Err? then Fail(x)
    else if f.server.name == [] || f.server.ip == [] then Step(x.st, Ok(None))
    else if f.valid then Step(x.st, Ok(Some(f.server)))
    else Step(x.st, Ok(None))
  }

  function Prepend(xs: seq<Server>, r: Result<seq<Server>>): (p: Result<seq<Server>>)
    ensures p.Ok? <==> r.Ok?
    ensures p.Ok? ==> p.value == xs + r.value
  {
    match r
    case Ok(ys) => Ok(xs + ys)
    case Err(e) => Err(e)
  }

  lemma PrependNil(r: Result<seq<Server>>)
    ensures Prepend([], r) == r
  {
    if r.Ok? {
      assert [] + r.value == r.value;
    }
  }

  lemma PrependAssoc(xs: seq<Server>, ys: seq<Server>, r: Result<seq<Server>>)
    ensures Prepend(xs, Prepend(ys, r)) == Prepend(xs + ys, r)
  {
    if r.Ok? {
      assert xs + (ys + r.value) == (xs + ys) + r.value;
    }
  }

  function OptionSeq(o: Option<Server>): (xs: seq<Server>)
    ensures |xs| <= 1 && (o.Some? ==> xs == [o.value])
  {
    if o.Some? then [o.value] else []
  }

  /** `n` iterations of the loop from state s: the entries kept, or the
      error that aborted the parse. */
  function ReadRecords(data: seq<byte>, s: RState, n: int): (r: Result<seq<Server>>)
    requires s.pos <= |data|
    decreases if n > 0 then n else 0, 1
  {
    if n <= 0 then Ok([]) else RecordThenRest(data, s, n - 1)
  }

  /** One entry read from s, followed by `n` more iterations. */
  function RecordThenRest(data: seq<byte>, s: RState, n: int): (r: Result<seq<Server>>)
    requires s.pos <= |data|
    decreases if n >= 0 then n + 1 else 1, 0
  {
    var rec := RecordStep(data, s);
    if rec.res.Err? then Err(rec.res.error)
    else Prepend(OptionSeq(rec.res.value), ReadRecords(data, rec.st, n))
  }

  /** At most one entry is kept per iteration. */
  lemma {:induction false} ReadRecordsBound(data: seq<byte>, s: RState, n: int)
    requires s.pos <= |data|
    ensures var r := ReadRecords(data, s, n);
      r.Ok? ==> |r.value| <= (if n > 0 then n else 0)
    decreases if n > 0 then n else 0
  {
    if n > 0 {
      var rec := RecordStep(data, s);
      assert ReadRecords(data, s, n) == RecordThenRest(data, s, n - 1);
      if rec.res.Ok? {
        var rest := ReadRecords(data, rec.st, n - 1);
        ReadRecordsBound(data, rec.st, n - 1);
        assert RecordThenRest(data, s, n - 1) == Prepend(OptionSeq(rec.res.value), rest);
      }
    }
  }

  /** Every entry kept has a name and an address. */
  lemma {:induction false} ReadRecordsKeepsComplete(data: seq<byte>, s: RState, n: int)
    requires s.pos <= |data|
    ensures var r := ReadRecords(data, s, n);
      r.Ok? ==> forall x :: x in r.value ==> HasRequiredFields(x)
    decreases if n > 0 then n else 0
  {
    if n > 0 {
      var rec := RecordStep(data, s);
      assert ReadRecords(data, s, n) == RecordThenRest(data, s, n - 1);
      if rec.res.Ok? {
        var rest := ReadRecords(data, rec.st, n - 1);
        ReadRecordsKeepsComplete(data, rec.st, n - 1);
        assert RecordThenRest(data, s, n - 1) == Prepend(OptionSeq(rec.res.value), rest);
      }
    }
  }

  /** parse_servers_dat on the bytes of the file: the root header, the list
      "servers", which must hold compounds, then one entry per element. Any
      exception escaping to the outer handler yields the empty list. */
  function ParseServersDatSpec(data: seq<byte>): (xs: seq<Server>)
  {
    match OpenStep(data)
    case Err(_) => []
    case Ok(s0) =>
      var head := ListHeadStep(data, s0, Some("servers"));
      if head.res.Err? || head.res.value.0 != TAG_COMPOUND then []
      else
        match ReadRecords(data, head.st, head.res.value.1)
        case Err(_) => []
        case Ok(xs) => xs
  }

  /** Whatever the file holds, every server parse_servers_dat returns has a
      name and an address, and a list that declares no elements yields none. */
  lemma ParseServersDatKeepsComplete(data: seq<byte>)
    ensures forall x :: x in ParseServersDatSpec(data) ==> HasRequiredFields(x)
    ensures match OpenStep(data)
      case Ok(s0) =>
        var head := ListHeadStep(data, s0, Some("servers"));
        head.res.Ok? && head.res.value.1 <= 0 ==> ParseServersDatSpec(data) == []
      case Err(_) => ParseServersDatSpec(data) == []
  {
    match OpenStep(data)
    case Err(_) =>
    case Ok(s0) =>
      var head := ListHeadStep(data, s0, Some("servers"));
      if head.res.Ok? && head.res.value.0 == TAG_COMPOUND {
        ReadRecordsKeepsComplete(data, head.st, head.res.value.1);
      }
  }

  /** The body of the inner try block, run on the reader. */
  method ReadServerFields(rd: Reader) returns (server: Server, valid: bool)
    requires rd.Valid()
    modifies rd, rd.size
    ensures rd.Valid()
    ensures Fields(rd.State(), server, valid) == ReadFields(rd.data, old(rd.State()))
  {
    server, valid := Server("", "", "", false), true;
    var name := rd.ReadString(Some("name"));
    if name.Err? {
      return server, false;
    }
    server := server.(name := name.value);
    var icon := rd.ReadString(Some("icon"));
    if icon.Err? {
      return server, false;
    }
    server := server.(icon := icon.value);
    var ip := rd.ReadString(Some("ip"));
    if ip.Err? {
      return server, false;
    }
    server := server.(ip := ip.value);
    var accept := rd.ReadByte(Some("acceptTextures"));
    if accept.Err? {
      return server, false;
    }
    server := server.(acceptTextures := accept.value != 0);
  }

  /** One iteration of the loop, run on the reader. */
  method ReadServer(rd: Reader) returns (r: Result<Option<Server>>)
    requires rd.Valid()
    modifies rd, rd.cla, rd.size
    ensures rd.Valid()
    ensures Step(rd.State(), r) == RecordStep(rd.data, old(rd.State()))
  {
    var entered := rd.EnterCompound(None);
    var server, valid := ReadServerFields(rd);
    var exited := rd.ExitCompound();
    if exited.Err? {
      return Err(exited.error);
    }
    if server.name == [] || server.ip == [] {
      return Ok(None);
    }
    r := if valid then Ok(Some(server)) else Ok(None);
  }

  /** What one iteration does to the loop invariant of ReadServers: the
      entries of the remaining iterations are the entry just read (if kept)
      followed by those of one iteration fewer. */
  lemma RecordsAfterOne(data: seq<byte>, before: RState, after: RState, rec: Result<Option<Server>>,
                        servers: seq<Server>, total: Result<seq<Server>>, k: int)
    requires before.pos <= |data| && after.pos <= |data| && k > 0
    requires Step(after, rec) == RecordStep(data, before)
    requires total == Prepend(servers, ReadRecords(data, before, k))
    ensures rec.Err? ==> total == Err(rec.error)
    ensures rec.Ok? ==> total == Prepend(servers + OptionSeq(rec.value), ReadRecords(data, after, k - 1))
  {
    if rec.Ok? {
      PrependAssoc(servers, OptionSeq(rec.value), ReadRecords(data, after, k - 1));
    }
  }

  /** One iteration of the loop, stated against the loop invariant of
      ReadServers: `total` is what `servers` followed by the `k` remaining
      iterations yields. */
  method ReadNextServer(rd: Reader, ghost k: int, ghost servers: seq<Server>, ghost total: Result<seq<Server>>)
    returns (r: Result<Option<Server>>)
    requires rd.Valid() && k > 0
    requires total == Prepend(servers, ReadRecords(rd.data, rd.State(), k))
    modifies rd, rd.cla, rd.size
    ensures rd.Valid()
    ensures r.Err? ==> total == Err(r.error)
    ensures r.Ok? ==> total == Prepend(servers + OptionSeq(r.value), ReadRecords(rd.data, rd.State(), k - 1))
  {
    ghost var before := rd.State();
    r := ReadServer(rd);
    RecordsAfterOne(rd.data, before, rd.State(), r, servers, total, k);
  }

  /** The loop of parse_servers_dat: `count` entries read in turn; an
      exception from exitCompound aborts it. */
  method ReadServers(rd: Reader, count: int) returns (r: Result<seq<Server>>)
    requires rd.Valid()
    modifies rd, rd.cla, rd.size
    ensures r == ReadRecords(rd.data, old(rd.State()), count)
  {
    ghost var st := rd.State();
    ghost var total := ReadRecords(rd.data, st, count);
    ghost var left := count;
    var servers: seq<Server> := [];
    var i := 0;
    PrependNil(total);
    while i < count
      invariant left == count - i
      invariant rd.Valid() && st == rd.State() && st.pos <= |rd.data|
      invariant total == Prepend(servers, ReadRecords(rd.data, st, left))
      decreases count - i
    {
      var rec := ReadNextServer(rd, left, servers, total);
      st := rd.State();
      if rec.Err? {
        return Err(rec.error);
      }
      servers := servers + OptionSeq(rec.value);
      i := i + 1;
      left := left - 1;
    }
    assert servers + [] == servers;
    r := Ok(servers);
  }

  /** parse_servers_dat, given the contents of the file. */
  method ParseServersDat(data: seq<byte>) returns (servers: seq<Server>)
    ensures servers == ParseServersDatSpec(data)
  {
    var openResult := Reader.Open(data);
    if openResult.Err? {
      return [];
    }
    var rd := openResult.value;
    var head := rd.ReadListHead(Some("servers"));
    if head.Err? {
      return [];
    }
    var elementType := head.value.0;
    var serverCount := head.value.1;
    if elementType != TAG_COMPOUND {
      return [];
    }
    var records := ReadServers(rd, serverCount);
    servers := if records.Err? then [] else records.value;
  }
}
