/** The text primitives the CSV code stands on: std::find_if for the next
    separator, the cutting of a text into pieces at separators (as the field
    loop of parse_servers_csv and std::getline both do), and the reverse,
    putting lines back together. */
module Text {

  /** The character std::getline stops at. */
  const Newline: set<char> := {'\n'}

  /** std::find_if over s[k..]: the offset of the first separator at or after
      k, or |s| when there is none. */
  function FindFirst(s: string, k: nat, seps: set<char>): (j: nat)
    requires k <= |s|
    ensures k <= j <= |s|
    ensures j < |s| ==> s[j] in seps
    decreases |s| - k
  {
    if k == |s| || s[k] in seps then k else FindFirst(s, k + 1, seps)
  }

  /** No separator lies between k and what FindFirst finds. */
  lemma {:induction false} FindFirstSkipsNone(s: string, k: nat, seps: set<char>)
    requires k <= |s|
    ensures forall i :: k <= i < FindFirst(s, k, seps) ==> s[i] !in seps
    decreases |s| - k
  {
    if k < |s| && s[k] !in seps {
      FindFirstSkipsNone(s, k + 1, seps);
    }
  }

  /** The pieces taken from offset pos on, as both loops of parse_servers_csv
      cut them: while pos is inside s, the piece up to the next separator,
      then on past that separator. A separator that ends s therefore starts
      no further piece, and an empty s has no piece at all. */
  function SplitFrom(s: string, pos: nat, seps: set<char>): (pieces: seq<string>)
    requires pos <= |s|
    decreases |s| - pos
  {
    if pos == |s| then []
    else
      var next := FindFirst(s, pos, seps);
      [s[pos..next]] + SplitFrom(s, Resume(s, next), seps)
  }

  /** Where the loops carry on after the separator found at `next`: past
      it, or at the end when none was found. */
  function Resume(s: string, next: nat): (pos: nat)
    requires next <= |s|
    ensures next < pos <= |s| || pos == next == |s|
  {
    if next == |s| then |s| else next + 1
  }

  /** SplitFrom at an offset inside s: the piece up to the next separator,
      then the pieces after it. */
  lemma SplitFromStep(s: string, pos: nat, seps: set<char>)
    requires pos < |s|
    ensures var next := FindFirst(s, pos, seps);
      SplitFrom(s, pos, seps) == [s[pos..next]] + SplitFrom(s, Resume(s, next), seps)
  {
  }

  function Split(s: string, seps: set<char>): seq<string>
  {
    SplitFrom(s, 0, seps)
  }

  /** The lines std::getline yields from the text. */
  function Lines(content: string): seq<string>
  {
    Split(content, Newline)
  }

  // ---------------------------------------------------------------------------
  // Splitting

  /** No piece holds a separator. */
  lemma {:induction false} SplitFromSeparatorFree(s: string, pos: nat, seps: set<char>)
    requires pos <= |s|
    ensures forall piece, c :: piece in SplitFrom(s, pos, seps) && c in piece ==> c !in seps
    decreases |s| - pos
  {
    if pos < |s| {
      var next := FindFirst(s, pos, seps);
      FindFirstSkipsNone(s, pos, seps);
      SplitFromSeparatorFree(s, Resume(s, next), seps);
    }
  }

  /** Searching inside the second part of a concatenation. */
  lemma {:induction false} FindFirstShift(pre: string, b: string, k: nat, seps: set<char>)
    requires k <= |b|
    ensures FindFirst(pre + b, |pre| + k, seps) == |pre| + FindFirst(b, k, seps)
    decreases |b| - k
  {
    var s := pre + b;
    assert |pre| + k == |s| <==> k == |b|;
    if k < |b| {
      assert s[|pre| + k] == b[k];
      if b[k] !in seps {
        FindFirstShift(pre, b, k + 1, seps);
      }
    }
  }

  /** Splitting inside the second part of a concatenation. */
  lemma {:induction false} SplitFromShift(pre: string, b: string, k: nat, seps: set<char>)
    requires k <= |b|
    ensures SplitFrom(pre + b, |pre| + k, seps) == SplitFrom(b, k, seps)
    decreases |b| - k
  {
    var s := pre + b;
    if k < |b| {
      FindFirstShift(pre, b, k, seps);
      var next := FindFirst(b, k, seps);
      var r := Resume(b, next);
      var q, qn, qr := |pre| + k, |pre| + next, |pre| + r;
      SplitFromStep(s, q, seps);
      SplitFromStep(b, k, seps);
      assert s[q..qn] == b[k..next];
      assert Resume(s, qn) == qr;
      SplitFromShift(pre, b, r, seps);
      assert SplitFrom(s, q, seps) == [b[k..next]] + SplitFrom(b, r, seps);
    } else {
      assert |pre| + k == |s|;
    }
  }

  /** A separator-free piece followed by a separator: the piece comes first,
      then the pieces of the rest. */
  lemma SplitCons(a: string, sep: char, b: string, seps: set<char>)
    requires sep in seps && forall c :: c in a ==> c !in seps
    ensures Split(a + [sep] + b, seps) == [a] + Split(b, seps)
  {
    var s := a + [sep] + b;
    assert s == (a + [sep]) + b;
    assert FindFirst(s, 0, seps) == |a| by {
      FindFirstPast(s, 0, |a|, seps);
    }
    assert s[0..|a|] == a;
    SplitFromShift(a + [sep], b, 0, seps);
  }

  /** FindFirst skips a stretch without separators. */
  lemma {:induction false} FindFirstPast(s: string, k: nat, j: nat, seps: set<char>)
    requires k <= j < |s| && s[j] in seps
    requires forall i :: k <= i < j ==> s[i] !in seps
    ensures FindFirst(s, k, seps) == j
    decreases j - k
  {
    if k < j {
      FindFirstPast(s, k + 1, j, seps);
    }
  }

  /** A non-empty separator-free text is one piece. */
  lemma SplitSingle(a: string, seps: set<char>)
    requires a != [] && forall c :: c in a ==> c !in seps
    ensures Split(a, seps) == [a]
  {
    assert FindFirst(a, 0, seps) == |a| by {
      assert forall i :: 0 <= i < |a| ==> a[i] in a;
      FindFirstToEnd(a, 0, seps);
    }
    SplitFromStep(a, 0, seps);
    assert a[0..|a|] == a;
  }

  /** FindFirst runs to the end of a text without separators. */
  lemma {:induction false} FindFirstToEnd(s: string, k: nat, seps: set<char>)
    requires k <= |s| && forall i :: k <= i < |s| ==> s[i] !in seps
    ensures FindFirst(s, k, seps) == |s|
    decreases |s| - k
  {
    if k < |s| {
      FindFirstToEnd(s, k + 1, seps);
    }
  }

  /** One separator appended to a non-empty text that does not already end in
      one adds no piece: a trailing delimiter yields no empty last field, and
      a final newline no empty last line. */
  lemma TrailingSeparator(s: string, sep: char, seps: set<char>)
    requires s != [] && s[|s| - 1] !in seps && sep in seps
    ensures Split(s + [sep], seps) == Split(s, seps)
  {
    TrailingSeparatorFrom(s, sep, seps, 0);
  }

  lemma {:induction false} TrailingSeparatorFrom(s: string, sep: char, seps: set<char>, k: nat)
    requires k < |s| && s[|s| - 1] !in seps && sep in seps
    ensures SplitFrom(s + [sep], k, seps) == SplitFrom(s, k, seps)
    decreases |s| - k
  {
    var t := s + [sep];
    var next := FindFirst(s, k, seps);
    FindFirstAppend(s, sep, seps, k);
    SplitFromStep(s, k, seps);
    SplitFromStep(t, k, seps);
    assert t[k..next] == s[k..next];
    if next < |s| {
      assert next + 1 < |s|;
      TrailingSeparatorFrom(s, sep, seps, next + 1);
    } else {
      assert SplitFrom(t, |t|, seps) == [] == SplitFrom(s, |s|, seps);
    }
  }

  /** A separator appended at the end is found only where s has none. */
  lemma {:induction false} FindFirstAppend(s: string, sep: char, seps: set<char>, k: nat)
    requires k <= |s| && sep in seps
    ensures FindFirst(s + [sep], k, seps) == FindFirst(s, k, seps)
    decreases |s| - k
  {
    var t := s + [sep];
    if k < |s| {
      assert t[k] == s[k];
      if s[k] !in seps {
        FindFirstAppend(s, sep, seps, k + 1);
      }
    }
  }

  /** Joining separator-free pieces with a separator and splitting the result
      gives the pieces back, as long as the last one is not empty. */
  lemma {:induction false} SplitJoin(pieces: seq<string>, sep: char, seps: set<char>)
    requires pieces != [] && pieces[|pieces| - 1] != [] && sep in seps
    requires forall i, c :: 0 <= i < |pieces| && c in pieces[i] ==> c !in seps
    ensures Split(Join(pieces, sep), seps) == pieces
    decreases |pieces|
  {
    if |pieces| == 1 {
      SplitSingle(pieces[0], seps);
    } else {
      assert forall c :: c in pieces[0] ==> c !in seps;
      SplitCons(pieces[0], sep, Join(pieces[1..], sep), seps);
      SplitJoin(pieces[1..], sep, seps);
    }
  }

  /** The pieces with the separator between each two of them. */
  function Join(pieces: seq<string>, sep: char): (s: string)
    requires pieces != []
  {
    if |pieces| == 1 then pieces[0] else pieces[0] + [sep] + Join(pieces[1..], sep)
  }

  lemma JoinCons(a: string, rest: seq<string>, sep: char)
    requires rest != []
    ensures Join([a] + rest, sep) == (a + [sep]) + Join(rest, sep)
  {
    assert ([a] + rest)[1..] == rest;
  }

  lemma Assoc(a: string, b: string, c: string)
    ensures (a + b) + c == a + (b + c)
  {
  }

  /** The lines, each followed by a newline: what a writer that ends every
      line produces. */
  function Unlines(ls: seq<string>): string
  {
    if ls == [] then "" else ls[0] + "\n" + Unlines(ls[1..])
  }

  lemma UnlinesCons(l: string, ls: seq<string>)
    ensures Unlines([l] + ls) == (l + "\n") + Unlines(ls)
  {
    assert ([l] + ls)[1..] == ls;
  }

  /** getline reads back the lines of Unlines, whatever follows them, as
      long as no line holds a newline. */
  lemma {:induction false} SplitUnlines(ls: seq<string>, rest: string)
    requires forall i :: 0 <= i < |ls| ==> '\n' !in ls[i]
    ensures Split(Unlines(ls) + rest, Newline) == ls + Split(rest, Newline)
    decreases |ls|
  {
    if ls == [] {
      assert Unlines(ls) + rest == rest;
    } else {
      var tail := Unlines(ls[1..]);
      Assoc(ls[0] + "\n", tail, rest);
      assert forall c :: c in ls[0] ==> c !in Newline;
      SplitCons(ls[0], '\n', tail + rest, Newline);
      SplitUnlines(ls[1..], rest);
      assert [ls[0]] + (ls[1..] + Split(rest, Newline)) == ls + Split(rest, Newline);
    }
  }
}
