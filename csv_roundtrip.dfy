/** serialize_servers_csv followed by parse_servers_csv: the list comes back
    unchanged when no field holds a delimiter or a newline, and since nothing
    is escaped, a delimiter inside a field shifts the fields that follow it. */
module CsvRoundTrip {
  import opened Servers
  import opened Text
  import opened ParseCsv
  import opened Serialize

  /** A field the CSV text carries unchanged: no delimiter, no newline. */
  predicate CsvSafe(field: string)
  {
    forall c :: c in field ==> c !in Delimiters && c != '\n'
  }

  predicate CsvSafeServer(x: Server)
  {
    CsvSafe(x.name) && CsvSafe(x.icon) && CsvSafe(x.ip)
  }

  /** A record line is its four fields joined by commas. */
  lemma CsvLineJoin(x: Server)
    ensures CsvLine(x) == Join([x.name, x.icon, x.ip, [FlagDigit(x.acceptTextures)]], ',')
  {
    var n, i, p, d, c := x.name, x.icon, x.ip, [FlagDigit(x.acceptTextures)], [','];
    JoinCons(p, [d], ',');
    JoinCons(i, [p, d], ',');
    assert [i] + [p, d] == [i, p, d];
    JoinCons(n, [i, p, d], ',');
    assert [n] + [i, p, d] == [n, i, p, d];
    var a, b, y := n + c, i + c, (i + c) + p;
    Assoc(a, i, c);
    Assoc(a, b, p);
    Assoc(a, y, c);
    Assoc(a, y + c, d);
    Assoc(b, p, c);
    Assoc(b, p + c, d);
  }

  /** A record line splits into exactly its four fields. */
  lemma CsvLineFields(x: Server)
    requires CsvSafeServer(x)
    ensures Fields(CsvLine(x)) == [x.name, x.icon, x.ip, [FlagDigit(x.acceptTextures)]]
  {
    var pieces := [x.name, x.icon, x.ip, [FlagDigit(x.acceptTextures)]];
    CsvLineJoin(x);
    SplitJoin(pieces, ',', Delimiters);
  }

  /** A record line yields back its server. */
  lemma CsvLineEntry(x: Server)
    requires CsvSafeServer(x)
    ensures LineEntry(CsvLine(x)) == [x]
  {
    CsvLineFields(x);
  }

  /** parse_servers_csv(serialize_servers_csv(xs)) == xs for fields free of
      ',', '|', ';' and newlines. */
  lemma {:induction false} CsvRoundTrip(xs: seq<Server>)
    requires forall i :: 0 <= i < |xs| ==> CsvSafeServer(xs[i])
    ensures CsvServers(CsvText(xs)) == xs
    decreases |xs|
  {
    if xs != [] {
      var x, rest := xs[0], xs[1..];
      assert xs == [x] + rest;
      CsvTextCons(x, rest);
      CsvLineOneLine(x);
      assert CsvRecord(x) + CsvText(rest) == CsvLine(x) + ['\n'] + CsvText(rest);
      SplitCons(CsvLine(x), '\n', CsvText(rest), Newline);
      EntriesCons(CsvLine(x), Lines(CsvText(rest)));
      CsvLineEntry(x);
      CsvRoundTrip(rest);
    }
  }

  /** A record line holds no newline when no field does. */
  lemma CsvLineOneLine(x: Server)
    requires NoNewline(x)
    ensures forall ch :: ch in CsvLine(x) ==> ch !in Newline
  {
    assert forall ch :: ch in CsvLine(x) ==> ch in x.name || ch in x.icon || ch in x.ip || ch == ',' || ch == FlagDigit(x.acceptTextures);
  }

  /** The record line of a name holding a comma splits into five fields. */
  lemma CommaInNameFields(x: Server, a: string, b: string)
    requires x.name == a + [','] + b
    requires CsvSafe(a) && CsvSafe(b) && CsvSafe(x.icon) && CsvSafe(x.ip)
    ensures Fields(CsvLine(x)) == [a, b, x.icon, x.ip, [FlagDigit(x.acceptTextures)]]
  {
    var i, p, d, c := x.icon, x.ip, [FlagDigit(x.acceptTextures)], [','];
    CsvLineJoin(x);
    var rest := Join([i, p, d], ',');
    JoinCons(x.name, [i, p, d], ',');
    assert [x.name] + [i, p, d] == [x.name, i, p, d];
    JoinCons(b, [i, p, d], ',');
    assert [b] + [i, p, d] == [b, i, p, d];
    JoinCons(a, [b, i, p, d], ',');
    assert [a] + [b, i, p, d] == [a, b, i, p, d];
    Assoc(a + c, b, c);
    Assoc(a + c, b + c, rest);
    SplitJoin([a, b, i, p, d], ',', Delimiters);
  }

  /** Fields are written verbatim, so a name holding a comma does not come
      back: its two parts take the places of the name and the icon, the icon
      that of the address, and the flag is read from the address. */
  lemma CommaInNameShiftsFields(x: Server, a: string, b: string)
    requires x.name == a + [','] + b
    requires CsvSafe(a) && CsvSafe(b) && CsvSafe(x.icon) && CsvSafe(x.ip)
    ensures CsvServers(CsvText([x])) == [Server(b, x.icon, a, |x.ip| > 0 && x.ip[0] == '1')]
    ensures CsvServers(CsvText([x])) != [x]
  {
    var line := CsvLine(x);
    CommaInNameFields(x, a, b);
    CsvLineOneLine(x);
    CsvTextCons(x, []);
    assert CsvText([x]) == line + ['\n'] + "";
    SplitCons(line, '\n', "", Newline);
    EntriesCons(line, []);
  }
}
