/** parse_servers_csv: one server per line of the text, the fields of a line
    separated by ',', '|' or ';' and read as name, icon, ip and the
    accept-textures flag. */
module ParseCsv {
  import opened Servers
  import opened Text

  /** The characters that end a field. */
  const Delimiters: set<char> := {',', '|', ';'}

  /** The items of one line. */
  function Fields(line: string): seq<string>
  {
    Split(line, Delimiters)
  }

  /** The entry a line contributes: none when it has fewer than four items;
      otherwise items 0, 1 and 2 are the name, the icon and the address, and
      the flag is set when item 3 starts with '1' (an empty item 3 reads as
      the terminating '\0'). Items past the fourth are ignored. */
  function LineEntry(line: string): (xs: seq<Server>)
  {
    var items := Fields(line);
    if |items| < 4 then []
    else [Server(items[1], items[2], items[0], |items[3]| > 0 && items[3][0] == '1')]
  }

  /** The entries of the given lines, in line order. */
  function Entries(lines: seq<string>): seq<Server>
  {
    if lines == [] then [] else LineEntry(lines[0]) + Entries(lines[1..])
  }

  /** What parse_servers_csv returns for the given text. */
  function CsvServers(content: string): seq<Server>
  {
    Entries(Lines(content))
  }

  // ---------------------------------------------------------------------------
  // Entries

  lemma EntriesCons(line: string, rest: seq<string>)
    ensures Entries([line] + rest) == LineEntry(line) + Entries(rest)
  {
    assert ([line] + rest)[1..] == rest;
  }

  /** Empty content yields no server. */
  lemma EmptyContent()
    ensures CsvServers("") == []
  {
  }

  /** Every server comes from its own line: a line yields at most one, and
      it does so exactly when it has at least four items. */
  lemma {:induction false} EntriesBound(lines: seq<string>)
    ensures |Entries(lines)| <= |lines|
    ensures |Entries(lines)| == |lines| <==> forall i :: 0 <= i < |lines| ==> |Fields(lines[i])| >= 4
    decreases |lines|
  {
    if lines != [] {
      EntriesBound(lines[1..]);
      assert forall i :: 1 <= i < |lines| ==> lines[i] == lines[1..][i - 1];
    }
  }

  // ---------------------------------------------------------------------------
  // The loops of parse_servers_csv

  /** The inner loop: the items of one line, pushed one at a time. */
  method SplitFields(line: string) returns (items: seq<string>)
    ensures items == Fields(line)
  {
    items := [];
    var pos: nat := 0;
    while pos < |line|
      invariant pos <= |line|
      invariant items + SplitFrom(line, pos, Delimiters) == Fields(line)
      decreases |line| - pos
    {
      var next := FindFirst(line, pos, Delimiters);
      var piece := line[pos..next];
      ghost var rest := SplitFrom(line, Resume(line, next), Delimiters);
      SplitFromStep(line, pos, Delimiters);
      assert items + [piece] + rest == items + ([piece] + rest);
      items := items + [piece];
      pos := Resume(line, next);
    }
  }

  /** The body of the getline loop: the line is split, and a server is made
      of it when it has at least four items. */
  method ParseLine(line: string) returns (entry: seq<Server>)
    ensures entry == LineEntry(line)
  {
    var items := SplitFields(line);
    if |items| < 4 {
      return [];
    }
    entry := [Server(items[1], items[2], items[0], |items[3]| > 0 && items[3][0] == '1')];
  }

  /** One turn of the getline loop keeps its invariant: the servers so far
      followed by those of the lines still to read are all of them. */
  lemma NextLine(content: string, pos: nat, servers: seq<Server>, entry: seq<Server>, total: seq<Server>)
    requires pos < |content|
    requires servers + Entries(SplitFrom(content, pos, Newline)) == total
    requires entry == LineEntry(content[pos..FindFirst(content, pos, Newline)])
    ensures (servers + entry) + Entries(SplitFrom(content, Resume(content, FindFirst(content, pos, Newline)), Newline)) == total
  {
    var next := FindFirst(content, pos, Newline);
    var rest := SplitFrom(content, Resume(content, next), Newline);
    SplitFromStep(content, pos, Newline);
    EntriesCons(content[pos..next], rest);
    assert servers + entry + Entries(rest) == servers + (entry + Entries(rest));
  }

  /** parse_servers_csv: empty content yields nothing; otherwise the getline
      loop splits each line and keeps the lines with at least four items. */
  method ParseServersCsv(content: string) returns (servers: seq<Server>)
    ensures servers == CsvServers(content)
  {
    if content == [] {
      return [];
    }
    ghost var total := CsvServers(content);
    servers := [];
    var pos: nat := 0;
    while pos < |content|
      invariant pos <= |content|
      invariant servers + Entries(SplitFrom(content, pos, Newline)) == total
      decreases |content| - pos
    {
      var next := FindFirst(content, pos, Newline);
      var line := content[pos..next];
      var entry := ParseLine(line);
      NextLine(content, pos, servers, entry, total);
      servers := servers + entry;
      pos := Resume(content, next);
    }
  }
}
