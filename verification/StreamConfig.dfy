/** parse_symbols: a comma-separated setting becomes a normal form that survives
    being joined with commas, as stream_sessions stores it, and parsed again. */
module StreamConfig {
  import opened Trades

  // str.strip's whitespace and str.upper, character by character; one character
  // may become several, as in Python.
  datatype Alphabet = Alphabet(space: char -> bool, upper: char -> string) {
    // What parse_symbols relies on: upper-casing leaves something, is done after
    // one pass, and makes neither whitespace nor a comma of anything else.
    ghost predicate Lawful() {
      && (forall c :: upper(c) != "")
      && (forall c, d :: d in upper(c) ==> upper(d) == [d])
      && (forall c, d :: d in upper(c) && space(d) ==> space(c))
      && (forall c, d :: d in upper(c) && d == ',' ==> c == ',')
    }

    // Nothing in the text changes in upper case.
    predicate IsUpper(p: string) { forall c :: c in p ==> upper(c) == [c] }

    function UpperAll(s: string): (r: string)
      ensures forall d :: d in r ==> exists c :: c in s && d in upper(c)
    {
      if s == [] then [] else upper(s[0]) + UpperAll(s[1..])
    }

    function StripLeft(s: string): (r: string)
      ensures r == [] || !space(r[0])
      ensures forall c :: c in r ==> c in s
    {
      if s != [] && space(s[0]) then StripLeft(s[1..]) else s
    }

    function StripRight(s: string): (r: string)
      ensures r <= s
      ensures r == [] || !space(r[|r| - 1])
    {
      if s != [] && space(s[|s| - 1]) then StripRight(s[..|s| - 1]) else s
    }

    // piece.strip().upper()
    function Clean(piece: string): string { UpperAll(StripRight(StripLeft(piece))) }

    function CleanAll(pieces: seq<string>): (r: seq<string>)
      ensures |r| == |pieces|
      ensures forall i :: 0 <= i < |r| ==> r[i] == Clean(pieces[i])
    {
      seq(|pieces|, i requires 0 <= i < |pieces| => Clean(pieces[i]))
    }

    /** None stands for the ConfigError. */
    function ParseSymbols(raw: string): Option<seq<string>> {
      var symbols := Distinct(CleanAll(Split(raw)));
      if symbols == [] then None else Some(symbols)
    }

    ghost predicate IsSymbol(p: string) {
      p != "" && ',' !in p && !space(p[0]) && !space(p[|p| - 1]) && IsUpper(p)
    }
  }

  function Split(s: string): (r: seq<string>)
    ensures r != [] && forall p :: p in r ==> ',' !in p
  {
    if s == [] then [""]
    else
      var rest := Split(s[1..]);
      if s[0] == ',' then [""] + rest else [[s[0]] + rest[0]] + rest[1..]
  }

  function Join(ps: seq<string>): string {
    if ps == [] then "" else if |ps| == 1 then ps[0] else ps[0] + "," + Join(ps[1..])
  }

  // dict.fromkeys over the pieces that are not empty
  function Distinct(pieces: seq<string>): seq<string> {
    if pieces == [] then []
    else
      var front, last := Distinct(pieces[..|pieces| - 1]), pieces[|pieces| - 1];
      if last == "" || last in front then front else front + [last]
  }

  // --- The normal form -----------------------------------------------------

  ghost predicate NoRepeats(ps: seq<string>) {
    forall i, j :: 0 <= i < j < |ps| ==> ps[i] != ps[j]
  }

  // `from` lists, in order, where each symbol is first seen among the pieces.
  ghost predicate FirstSeen(from: seq<nat>, pieces: seq<string>, ps: seq<string>) {
    && |from| == |ps|
    && (forall k, l :: 0 <= k < l < |from| ==> from[k] < from[l])
    && (forall k :: 0 <= k < |from| ==> from[k] < |pieces| && pieces[from[k]] == ps[k] && ps[k] !in pieces[..from[k]])
    && (forall p :: p in pieces && p != "" ==> p in ps)
  }

  // Upper-casing begins and ends with what the first and the last character become.
  lemma {:induction false} UpperEnds(u: Alphabet, s: string)
    requires u.Lawful() && s != ""
    ensures var r, first, last := u.UpperAll(s), u.upper(s[0]), u.upper(s[|s| - 1]);
            r != "" && r[0] == first[0] && r[|r| - 1] == last[|last| - 1]
  {
    if |s| > 1 { UpperEnds(u, s[1..]); }
  }

  lemma CleanIsSymbol(u: Alphabet, piece: string)
    requires u.Lawful() && ',' !in piece && u.Clean(piece) != ""
    ensures u.IsSymbol(u.Clean(piece))
  {
    var left := u.StripLeft(piece);
    var mid := u.StripRight(left);
    UpperEnds(u, mid);
    assert mid[0] == left[0];
    forall d | d in u.Clean(piece) ensures u.upper(d) == [d] && d != ',' {
      var c :| c in mid && d in u.upper(c);
      assert c in left;
    }
  }

  lemma FirstSeenExtends(from: seq<nat>, front: seq<string>, p: string, ps: seq<string>)
    requires FirstSeen(from, front, ps)
    ensures p == "" || p in ps ==> FirstSeen(from, front + [p], ps)
    ensures p !in ps && p !in front ==> FirstSeen(from + [|front|], front + [p], ps + [p])
  {
    var pieces := front + [p];
    forall k | 0 <= k < |from| ensures pieces[..from[k]] == front[..from[k]] && pieces[from[k]] == front[from[k]] {}
    assert pieces[..|front|] == front;
  }

  lemma {:induction false} DistinctIsFirstSeen(pieces: seq<string>)
    ensures exists from: seq<nat> :: FirstSeen(from, pieces, Distinct(pieces))
    ensures NoRepeats(Distinct(pieces)) && "" !in Distinct(pieces)
  {
    if pieces == [] {
      var none: seq<nat> := [];
      assert FirstSeen(none, pieces, Distinct(pieces));
    } else {
      var front, p := pieces[..|pieces| - 1], pieces[|pieces| - 1];
      DistinctIsFirstSeen(front);
      var from: seq<nat> :| FirstSeen(from, front, Distinct(front));
      FirstSeenExtends(from, front, p, Distinct(front));
      assert pieces == front + [p];
      if p == "" || p in Distinct(front) {
        assert FirstSeen(from, pieces, Distinct(pieces));
      } else {
        assert FirstSeen(from + [|front|], pieces, Distinct(pieces));
      }
    }
  }

  /** On success the symbols are non-empty, trimmed, upper-case, without
      repeats, and exactly the usable pieces in the order first seen. */
  lemma ParsedIsNormal(u: Alphabet, raw: string)
    requires u.Lawful() && u.ParseSymbols(raw).Some?
    ensures var symbols := u.ParseSymbols(raw).value;
            && symbols != [] && NoRepeats(symbols)
            && (forall p :: p in symbols ==> u.IsSymbol(p))
            && exists from: seq<nat> :: FirstSeen(from, u.CleanAll(Split(raw)), symbols)
  {
    var pieces := u.CleanAll(Split(raw));
    DistinctIsFirstSeen(pieces);
    var symbols := Distinct(pieces);
    var from: seq<nat> :| FirstSeen(from, pieces, symbols);
    forall p | p in symbols ensures u.IsSymbol(p) {
      var k :| 0 <= k < |symbols| && symbols[k] == p;
      CleanIsSymbol(u, Split(raw)[from[k]]);
    }
  }

  // --- What the pieces are ---------------------------------------------------

  /** Splitting loses nothing: the pieces, none with a comma in it, join back to the text. */
  lemma {:induction false} JoinOfSplit(s: string)
    ensures Join(Split(s)) == s && forall p :: p in Split(s) ==> ',' !in p
  {
    if s != "" {
      JoinOfSplit(s[1..]);
      assert s == [s[0]] + s[1..];
      if s[0] == ',' { JoinAfterComma(Split(s[1..])); } else { JoinStartsWith(s[0], Split(s[1..])); }
    }
  }

  lemma JoinStartsWith(c: char, ps: seq<string>)
    requires ps != []
    ensures Join([[c] + ps[0]] + ps[1..]) == [c] + Join(ps)
  {
    var longer := [[c] + ps[0]] + ps[1..];
    assert longer[1..] == ps[1..];
    if |ps| > 1 { Regroup([c], ps[0], ",", Join(ps[1..])); }
  }

  lemma Regroup(a: string, b: string, c: string, d: string)
    ensures ((a + b) + c) + d == a + ((b + c) + d)
  {}

  lemma JoinAfterComma(ps: seq<string>)
    requires ps != []
    ensures Join([""] + ps) == "," + Join(ps)
  {
    assert ([""] + ps)[1..] == ps;
    assert "" + "," + Join(ps) == "," + Join(ps);
  }

  // All whitespace.
  ghost predicate Blank(u: Alphabet, s: string) { forall c :: c in s ==> u.space(c) }

  // `mid` is the piece without the whitespace around it.
  ghost predicate Trims(u: Alphabet, piece: string, before: string, mid: string, after: string) {
    && piece == before + (mid + after) && Blank(u, before) && Blank(u, after)
    && (mid != "" ==> !u.space(mid[0]) && !u.space(mid[|mid| - 1]))
  }

  lemma {:induction false} LeftTrims(u: Alphabet, s: string) returns (before: string)
    ensures s == before + u.StripLeft(s) && Blank(u, before)
  {
    if s != "" && u.space(s[0]) {
      before := LeftTrims(u, s[1..]);
      before := [s[0]] + before;
    } else {
      before := "";
    }
  }

  lemma {:induction false} RightTrims(u: Alphabet, s: string) returns (after: string)
    ensures s == u.StripRight(s) + after && Blank(u, after)
  {
    if s != "" && u.space(s[|s| - 1]) {
      after := RightTrims(u, s[..|s| - 1]);
      after := after + [s[|s| - 1]];
    } else {
      after := "";
    }
  }

  /** Upper-casing works on each character where it stands. */
  lemma {:induction false} UpperAllAppend(u: Alphabet, a: string, b: string)
    ensures u.UpperAll(a + b) == u.UpperAll(a) + u.UpperAll(b)
    ensures |a| == 1 ==> u.UpperAll(a) == u.upper(a[0])
  {
    if a == "" {
      assert a + b == b;
    } else {
      assert (a + b)[1..] == a[1..] + b;
      UpperAllAppend(u, a[1..], b);
    }
  }

  /** A piece is cleaned to its text without the whitespace around it, in upper case. */
  lemma CleanTrims(u: Alphabet, piece: string)
    ensures exists before: string, mid: string, after: string ::
              Trims(u, piece, before, mid, after) && u.Clean(piece) == u.UpperAll(mid)
  {
    var left := u.StripLeft(piece);
    var mid := u.StripRight(left);
    var before := LeftTrims(u, piece);
    var after := RightTrims(u, left);
    assert mid != "" ==> mid[0] == left[0];
    assert Trims(u, piece, before, mid, after);
  }

  /** The setting is refused exactly when every piece is empty or all whitespace. */
  lemma RefusedIffBlank(u: Alphabet, raw: string)
    requires u.Lawful()
    ensures u.ParseSymbols(raw).None? <==> forall p :: p in Split(raw) ==> Blank(u, p)
  {
    var pieces := Split(raw);
    DistinctIsFirstSeen(u.CleanAll(pieces));
    var from: seq<nat> :| FirstSeen(from, u.CleanAll(pieces), Distinct(u.CleanAll(pieces)));
    forall p | p in pieces ensures u.Clean(p) == "" <==> Blank(u, p) { EmptyIffBlank(u, p); }
    forall p | p in pieces ensures u.Clean(p) in u.CleanAll(pieces) {
      var i :| 0 <= i < |pieces| && pieces[i] == p;
      assert u.CleanAll(pieces)[i] == u.Clean(p);
    }
    if from != [] { assert pieces[from[0]] in pieces; }
  }

  lemma EmptyIffBlank(u: Alphabet, piece: string)
    requires u.Lawful()
    ensures u.Clean(piece) == "" <==> Blank(u, piece)
  {
    var left := u.StripLeft(piece);
    var mid := u.StripRight(left);
    var before := LeftTrims(u, piece);
    var after := RightTrims(u, left);
    assert piece == before + mid + after;
    if mid != "" {
      UpperEnds(u, mid);
      assert mid[0] in piece && !u.space(mid[0]);
    }
  }

  // --- Round trip ----------------------------------------------------------

  lemma {:induction false} SplitWord(p: string)
    requires ',' !in p
    ensures Split(p) == [p]
  {
    if p != [] {
      SplitWord(p[1..]);
      assert [p[0]] + p[1..] == p;
    }
  }

  lemma {:induction false} SplitAfterWord(p: string, rest: string)
    requires ',' !in p
    ensures Split(p + "," + rest) == [p] + Split(rest)
  {
    if p == [] {
      assert p + "," + rest == "," + rest;
    } else {
      assert (p + "," + rest)[1..] == p[1..] + "," + rest;
      SplitAfterWord(p[1..], rest);
      assert [p[0]] + p[1..] == p;
    }
  }

  lemma {:induction false} SplitJoin(ps: seq<string>)
    requires ps != [] && forall p :: p in ps ==> ',' !in p
    ensures Split(Join(ps)) == ps
  {
    if |ps| == 1 {
      SplitWord(ps[0]);
    } else {
      SplitJoin(ps[1..]);
      SplitAfterWord(ps[0], Join(ps[1..]));
    }
  }

  lemma {:induction false} UpperTwice(u: Alphabet, p: string)
    requires u.IsUpper(p)
    ensures u.UpperAll(p) == p
  {
    if p != "" {
      UpperTwice(u, p[1..]);
      assert [p[0]] + p[1..] == p;
    }
  }

  lemma CleanOfSymbol(u: Alphabet, p: string)
    requires u.IsSymbol(p)
    ensures u.Clean(p) == p
  {
    assert u.StripLeft(p) == p && u.StripRight(p) == p;
    UpperTwice(u, p);
  }

  lemma {:induction false} DistinctOfDistinct(ps: seq<string>)
    requires NoRepeats(ps) && "" !in ps
    ensures Distinct(ps) == ps
  {
    if ps != [] { DistinctOfDistinct(ps[..|ps| - 1]); }
  }

  /** Every list in the normal form comes back unchanged when its comma-join is
      parsed; so parsing what a session row stores gives the session's symbols. */
  lemma ParseOfJoin(u: Alphabet, ps: seq<string>)
    requires ps != [] && NoRepeats(ps) && forall p :: p in ps ==> u.IsSymbol(p)
    ensures u.ParseSymbols(Join(ps)) == Some(ps)
  {
    SplitJoin(ps);
    forall i | 0 <= i < |ps| ensures u.CleanAll(ps)[i] == ps[i] { CleanOfSymbol(u, ps[i]); }
    assert u.CleanAll(ps) == ps;
    DistinctOfDistinct(ps);
  }

  lemma ParseIsStable(u: Alphabet, raw: string)
    requires u.Lawful() && u.ParseSymbols(raw).Some?
    ensures u.ParseSymbols(Join(u.ParseSymbols(raw).value)) == u.ParseSymbols(raw)
  {
    ParsedIsNormal(u, raw);
    ParseOfJoin(u, u.ParseSymbols(raw).value);
  }

  // --- Python's alphabet ---------------------------------------------------

  // Python's own on the characters of Latin-1: sharp s becomes two letters, and
  // the micro sign and y with diaeresis leave the range.
  const LATIN1 := Alphabet(LatinSpace, LatinUpper)

  predicate LatinSpace(c: char) {
    c == ' ' || '\t' <= c <= '\r' || '\U{1C}' <= c <= '\U{1F}' || c == '\U{85}' || c == '\U{A0}'
  }

  function LatinUpper(c: char): string {
    if 'a' <= c <= 'z' || ('\U{E0}' <= c <= '\U{FE}' && c != '\U{F7}') then [(c as int - 32) as char]
    else if c == '\U{DF}' then "SS"
    else if c == '\U{B5}' then "\U{39C}"
    else if c == '\U{FF}' then "\U{178}"
    else [c]
  }

  lemma LatinIsLawful()
    ensures LATIN1.Lawful()
  {
    forall c, d | d in LatinUpper(c)
      ensures LatinUpper(d) == [d] && (LatinSpace(d) ==> LatinSpace(c)) && (d == ',' ==> c == ',')
    {
      var i :| 0 <= i < |LatinUpper(c)| && LatinUpper(c)[i] == d;
    }
  }
}
