/** serialize_servers_csv and serialize_servers_toml: the server list as
    text, one record after the other in list order, with every field copied
    verbatim (nothing is quoted or escaped). */
module Serialize {
  import opened Servers
  import opened Text

  // ---------------------------------------------------------------------------
  // CSV

  /** The accept-textures flag as one digit. */
  function FlagDigit(b: bool): (c: char)
    ensures c == '1' <==> b
  {
    if b then '1' else '0'
  }

  /** One CSV record without its newline: name, icon, ip and the flag digit,
      separated by commas. */
  function CsvLine(x: Server): string
  {
    x.name + "," + x.icon + "," + x.ip + "," + [FlagDigit(x.acceptTextures)]
  }

  /** One CSV record with its newline. */
  function CsvRecord(x: Server): string
  {
    CsvLine(x) + "\n"
  }

  /** The CSV text of a list: its records in list order. */
  function CsvText(xs: seq<Server>): string
  {
    if xs == [] then "" else CsvText(xs[..|xs| - 1]) + CsvRecord(xs[|xs| - 1])
  }

  /** serialize_servers_csv: the records appended to the stream in turn. */
  method SerializeCsv(servers: seq<Server>) returns (out: string)
    ensures out == CsvText(servers)
  {
    out := "";
    for i := 0 to |servers|
      invariant out == CsvText(servers[..i])
    {
      var x := servers[i];
      assert servers[..i + 1][..i] == servers[..i];
      out := out + x.name + "," + x.icon + "," + x.ip + "," + [FlagDigit(x.acceptTextures)] + "\n";
    }
    assert servers[..|servers|] == servers;
  }

  /** The text of a list is that of its first record followed by that of the
      rest. */
  lemma {:induction false} CsvTextCons(x: Server, xs: seq<Server>)
    ensures CsvText([x] + xs) == CsvRecord(x) + CsvText(xs)
    decreases |xs|
  {
    if xs == [] {
      assert [x] + xs == [x];
      assert [x][..0] == [];
    } else {
      var init, last := xs[..|xs| - 1], xs[|xs| - 1];
      assert ([x] + xs)[..|xs|] == [x] + init;
      assert ([x] + xs)[|xs|] == last;
      CsvTextCons(x, init);
      Assoc(CsvRecord(x), CsvText(init), CsvRecord(last));
    }
  }

  /** The text holds one newline per record when no field holds one (so it
      is empty exactly when the list is). */
  lemma {:induction false} CsvNewlines(xs: seq<Server>)
    requires forall i :: 0 <= i < |xs| ==> NoNewline(xs[i])
    ensures multiset(CsvText(xs))['\n'] == |xs|
    decreases |xs|
  {
    if xs != [] {
      var init, x := xs[..|xs| - 1], xs[|xs| - 1];
      CsvNewlines(init);
      assert multiset(CsvRecord(x))['\n'] == 1 by {
        assert '\n' !in CsvLine(x);
        assert multiset(CsvRecord(x)) == multiset(CsvLine(x)) + multiset{'\n'};
      }
      assert multiset(CsvText(xs)) == multiset(CsvText(init)) + multiset(CsvRecord(x));
    }
  }

  /** No field of the record contains a newline. */
  predicate NoNewline(x: Server)
  {
    '\n' !in x.name && '\n' !in x.icon && '\n' !in x.ip
  }

  // ---------------------------------------------------------------------------
  // TOML

  /** The five lines of one TOML table and the blank line after it. */
  function TomlBlock(x: Server): seq<string>
  {
    ["[[servers]]",
     "icon = \"" + x.icon + "\"",
     "ip = \"" + x.ip + "\"",
     "name = \"" + x.name + "\"",
     "accept_textures = " + (if x.acceptTextures then "true" else "false"),
     ""]
  }

  /** One TOML record: the lines of its block, each ended by a newline. */
  function TomlRecord(x: Server): string
  {
    Unlines(TomlBlock(x))
  }

  /** The TOML text of a list: its records in list order. */
  function TomlText(xs: seq<Server>): string
  {
    if xs == [] then "" else TomlText(xs[..|xs| - 1]) + TomlRecord(xs[|xs| - 1])
  }

  /** The six writes of one record append exactly that record. */
  lemma TomlRecordWrites(out: string, x: Server)
    ensures out + "[[servers]]\n" + ("icon = \"" + x.icon + "\"\n") + ("ip = \"" + x.ip + "\"\n")
      + ("name = \"" + x.name + "\"\n")
      + ("accept_textures = " + (if x.acceptTextures then "true" else "false") + "\n") + "\n"
      == out + TomlRecord(x)
  {
    var b := TomlBlock(x);
    var s6: seq<string> := [];
    var s5 := [b[5]] + s6;
    var s4 := [b[4]] + s5;
    var s3 := [b[3]] + s4;
    var s2 := [b[2]] + s3;
    var s1 := [b[1]] + s2;
    assert b == [b[0]] + s1;
    UnlinesCons(b[5], s6);
    UnlinesCons(b[4], s5);
    UnlinesCons(b[3], s4);
    UnlinesCons(b[2], s3);
    UnlinesCons(b[1], s2);
    UnlinesCons(b[0], s1);
    var l1, l2, l3 := "[[servers]]\n", "icon = \"" + x.icon + "\"\n", "ip = \"" + x.ip + "\"\n";
    var l4, l5, l6 := "name = \"" + x.name + "\"\n", "accept_textures = " + (if x.acceptTextures then "true" else "false") + "\n", "\n";
    assert l1 == b[0] + "\n" && l2 == b[1] + "\n" && l3 == b[2] + "\n";
    assert l4 == b[3] + "\n" && l5 == b[4] + "\n" && l6 == b[5] + "\n";
    assert l6 + "" == l6;
    Assoc(out, l1, l2 + (l3 + (l4 + (l5 + l6))));
    Assoc(out + l1, l2, l3 + (l4 + (l5 + l6)));
    Assoc(out + l1 + l2, l3, l4 + (l5 + l6));
    Assoc(out + l1 + l2 + l3, l4, l5 + l6);
    Assoc(out + l1 + l2 + l3 + l4, l5, l6);
  }

  /** serialize_servers_toml: the six writes of each record, in turn. */
  method SerializeToml(servers: seq<Server>) returns (out: string)
    ensures out == TomlText(servers)
  {
    out := "";
    for i := 0 to |servers|
      invariant out == TomlText(servers[..i])
    {
      var x := servers[i];
      ghost var before := out;
      assert servers[..i + 1][..i] == servers[..i];
      out := out + "[[servers]]\n";
      out := out + ("icon = \"" + x.icon + "\"\n");
      out := out + ("ip = \"" + x.ip + "\"\n");
      out := out + ("name = \"" + x.name + "\"\n");
      out := out + ("accept_textures = " + (if x.acceptTextures then "true" else "false") + "\n");
      out := out + "\n";
      TomlRecordWrites(before, x);
    }
    assert servers[..|servers|] == servers;
  }

  lemma {:induction false} TomlTextCons(x: Server, xs: seq<Server>)
    ensures TomlText([x] + xs) == TomlRecord(x) + TomlText(xs)
    decreases |xs|
  {
    if xs == [] {
      assert [x] + xs == [x];
      assert [x][..0] == [];
    } else {
      var init, last := xs[..|xs| - 1], xs[|xs| - 1];
      assert ([x] + xs)[..|xs|] == [x] + init;
      assert ([x] + xs)[|xs|] == last;
      TomlTextCons(x, init);
      Assoc(TomlRecord(x), TomlText(init), TomlRecord(last));
    }
  }

  /** The blocks of the records, in list order. */
  function TomlBlocks(xs: seq<Server>): seq<string>
  {
    if xs == [] then [] else TomlBlock(xs[0]) + TomlBlocks(xs[1..])
  }

  /** Read back line by line, the TOML text is the blocks of the records,
      provided no field holds a newline. */
  lemma {:induction false} TomlLines(xs: seq<Server>)
    requires forall i :: 0 <= i < |xs| ==> NoNewline(xs[i])
    ensures Lines(TomlText(xs)) == TomlBlocks(xs)
    decreases |xs|
  {
    if xs != [] {
      var x, rest := xs[0], xs[1..];
      assert xs == [x] + rest;
      TomlTextCons(x, rest);
      TomlBlockFacts(x);
      SplitUnlines(TomlBlock(x), TomlText(rest));
      TomlLines(rest);
    }
  }

  /** A block is six lines, none holding a newline when no field does, and
      exactly one of them is the table header: the others begin with a key or
      are blank. */
  lemma TomlBlockFacts(x: Server)
    ensures |TomlBlock(x)| == 6
    ensures NoNewline(x) ==> forall i :: 0 <= i < 6 ==> '\n' !in TomlBlock(x)[i]
    ensures multiset(TomlBlock(x))["[[servers]]"] == 1
  {
    var b := TomlBlock(x);
    assert b[1][0] == 'i' && b[2][0] == 'i' && b[3][0] == 'n' && b[4][0] == 'a' && b[5] == "";
    assert b == ["[[servers]]"] + b[1..];
    assert "[[servers]]" !in b[1..];
  }

  /** Each record contributes exactly one "[[servers]]" line. */
  lemma {:induction false} TomlOneHeaderPerRecord(xs: seq<Server>)
    ensures multiset(TomlBlocks(xs))["[[servers]]"] == |xs|
    decreases |xs|
  {
    if xs != [] {
      TomlBlockFacts(xs[0]);
      TomlOneHeaderPerRecord(xs[1..]);
    }
  }
}
