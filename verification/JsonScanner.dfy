/**
 The first-balanced-object scanner of agent/json_utils.py, against JSON texts as RFC 8259 has
 them: strings as in its section 7, objects as in its section 4.
 */
module JsonScanner {
  import opened Common

  // ----- the scanner -----

  /** `depth`, `in_str` and `esc`. */
  datatype State = State(depth: int, inStr: bool, esc: bool)

  const FRESH := State(0, false, false)

  /** One character; None when it closes the object. */
  function Step(st: State, ch: char): Option<State> {
    if st.esc then Some(st.(esc := false))
    else if ch == '\\' && st.inStr then Some(st.(esc := true))
    else if ch == '"' then Some(st.(inStr := !st.inStr))
    else if st.inStr then Some(st)
    else if ch == '{' then Some(st.(depth := st.depth + 1))
    else if ch == '}' then
      if st.depth - 1 == 0 then None else Some(st.(depth := st.depth - 1))
    else Some(st)
  }

  /**
   What counts where: outside a string quotes and braces, and the brace that brings the depth to zero
   closes; inside one the backslash and the quote; behind a backslash nothing.
   */
  lemma {:induction false} WhatCounts(st: State, ch: char)
    ensures st.esc ==> Step(st, ch) == Some(State(st.depth, st.inStr, false))
    ensures !st.esc && st.inStr ==> Step(st, ch) == Some(State(st.depth, ch != '"', ch == '\\'))
    ensures !st.esc && !st.inStr && ch !in "{}" ==> Step(st, ch) == Some(State(st.depth, ch == '"', false))
    ensures !st.esc && !st.inStr && ch == '{' ==> Step(st, ch) == Some(State(st.depth + 1, false, false))
    ensures !st.esc && !st.inStr && ch == '}' ==>
              Step(st, ch) == if st.depth == 1 then None else Some(State(st.depth - 1, false, false))
  {
  }

  /** The state once the characters from `lo` to `hi` are read; None from the closing brace on. */
  function Feed(st: Option<State>, s: string, lo: nat, hi: nat): Option<State>
    requires lo <= hi <= |s|
    decreases hi
  {
    if hi == lo then st
    else
      var before := Feed(st, s, lo, hi - 1);
      if before.None? then None else Step(before.value, s[hi - 1])
  }

  datatype Scan = NoBrace | Unbalanced(start: nat) | Found(start: nat, end: nat)

  /** Where the first brace is, and the first place after it where the object closes. */
  ghost predicate Scans(clean: string, r: Scan) {
    match r
    case NoBrace => '{' !in clean
    case Unbalanced(start) => FirstBrace(clean, start) && Feed(Some(FRESH), clean, start, |clean|).Some?
    case Found(start, end) =>
      && start <= end < |clean| && FirstBrace(clean, start)
      && Feed(Some(FRESH), clean, start, end).Some? && Feed(Some(FRESH), clean, start, end + 1).None?
  }

  ghost predicate FirstBrace(s: string, start: nat) {
    start < |s| && s[start] == '{' && '{' !in s[..start]
  }

  /** The loop of `extract_json`, on the text left once it is stripped and rid of code fences. */
  method ScanObject(clean: string) returns (r: Scan)
    ensures Scans(clean, r)
  {
    var start := 0;
    while start < |clean| && clean[start] != '{'
      invariant start <= |clean| && '{' !in clean[..start]
    {
      start := start + 1;
    }
    if start == |clean| {
      assert clean[..start] == clean;
      return NoBrace;
    }
    var depth, inStr, esc := 0, false, false;
    for i := start to |clean|
      invariant Feed(Some(FRESH), clean, start, i) == Some(State(depth, inStr, esc))
    {
      var ch := clean[i];
      if esc {
        esc := false;
      } else if ch == '\\' && inStr {
        esc := true;
      } else if ch == '"' {
        inStr := !inStr;
      } else if inStr {
      } else if ch == '{' {
        depth := depth + 1;
      } else if ch == '}' {
        depth := depth - 1;
        if depth == 0 {
          return Found(start, i);
        }
      }
    }
    return Unbalanced(start);
  }

  // ----- JSON texts -----

  /** One character of a string, or one escape. */
  datatype Piece = Plain(c: char) | Escape(c: char) | Hex(a: char, b: char, c: char, d: char)

  datatype Scalar = Null | True | False | Number(text: string) | Text(pieces: seq<Piece>)

  /** A JSON value as it is written, white space included. */
  datatype Json = Leaf(scalar: Scalar) | Arr(items: Items) | Obj(members: Members)
  datatype Items = NoItems(ws: string) | Item(before: string, value: Json, after: string, rest: Option<Items>)
  datatype Members =
    | NoMembers(ws: string)
    | Member(before: string, key: seq<Piece>, colon: string, gap: string, value: Json, after: string,
             rest: Option<Members>)

  predicate Blank(s: string) {
    forall i :: 0 <= i < |s| ==> s[i] in " \t\n\r"
  }

  predicate LegalPiece(p: Piece) {
    match p
    case Plain(c) => c >= ' ' && c != '"' && c != '\\'
    case Escape(c) => c in "\"\\/bfnrt"
    case Hex(a, b, c, d) => a in HEX && b in HEX && c in HEX && d in HEX
  }

  const HEX := "0123456789abcdefABCDEF"

  predicate LegalString(s: seq<Piece>) {
    forall i :: 0 <= i < |s| ==> LegalPiece(s[i])
  }

  /** Numbers are only looked at as far as the scanner needs. */
  predicate LegalScalar(s: Scalar) {
    match s
    case Number(text) => forall i :: 0 <= i < |text| ==> text[i] in "0123456789+-.eE"
    case Text(pieces) => LegalString(pieces)
    case _ => true
  }

  predicate Legal(v: Json) {
    match v
    case Leaf(s) => LegalScalar(s)
    case Arr(items) => LegalItems(items)
    case Obj(members) => LegalMembers(members)
  }

  predicate LegalItems(items: Items) {
    match items
    case NoItems(ws) => Blank(ws)
    case Item(before, value, after, rest) =>
      && Blank(before) && Legal(value) && Blank(after)
      && (rest.Some? ==> rest.value.Item? && LegalItems(rest.value))
  }

  predicate LegalMembers(members: Members) {
    match members
    case NoMembers(ws) => Blank(ws)
    case Member(before, key, colon, gap, value, after, rest) =>
      && Blank(before) && LegalString(key) && Blank(colon) && Blank(gap) && Legal(value) && Blank(after)
      && (rest.Some? ==> rest.value.Member? && LegalMembers(rest.value))
  }

  function PrintPiece(p: Piece): string {
    match p
    case Plain(c) => [c]
    case Escape(c) => ['\\', c]
    case Hex(a, b, c, d) => ['\\', 'u', a, b, c, d]
  }

  function PrintPieces(s: seq<Piece>, n: nat): string
    requires n <= |s|
  {
    if n == 0 then "" else PrintPieces(s, n - 1) + PrintPiece(s[n - 1])
  }

  function PrintString(s: seq<Piece>): string {
    "\"" + PrintPieces(s, |s|) + "\""
  }

  function PrintScalar(s: Scalar): string {
    match s
    case Null => "null"
    case True => "true"
    case False => "false"
    case Number(text) => text
    case Text(pieces) => PrintString(pieces)
  }

  function Print(v: Json): string {
    match v
    case Leaf(s) => PrintScalar(s)
    case Arr(items) => "[" + PrintItems(items) + "]"
    case Obj(members) => "{" + PrintMembers(members) + "}"
  }

  function PrintItems(items: Items): string {
    match items
    case NoItems(ws) => ws
    case Item(before, value, after, None) => before + Print(value) + after
    case Item(before, value, after, Some(rest)) => before + Print(value) + after + "," + PrintItems(rest)
  }

  function PrintMember(before: string, key: seq<Piece>, colon: string, gap: string): string {
    before + PrintString(key) + colon + ":" + gap
  }

  function PrintMembers(members: Members): string {
    match members
    case NoMembers(ws) => ws
    case Member(before, key, colon, gap, value, after, None) =>
      PrintMember(before, key, colon, gap) + Print(value) + after
    case Member(before, key, colon, gap, value, after, Some(rest)) =>
      PrintMember(before, key, colon, gap) + Print(value) + after + "," + PrintMembers(rest)
  }

  // ----- scanning a printed object -----

  function Run(st: Option<State>, s: string): Option<State> {
    Feed(st, s, 0, |s|)
  }

  lemma {:induction false} FeedSplits(st: Option<State>, s: string, lo: nat, mid: nat, hi: nat)
    requires lo <= mid <= hi <= |s|
    ensures Feed(st, s, lo, hi) == Feed(Feed(st, s, lo, mid), s, mid, hi)
  {
    if hi == mid {
    } else {
      FeedSplits(st, s, lo, mid, hi - 1);
    }
  }

  lemma {:induction false} FeedElsewhere(st: Option<State>, a: string, b: string, c: string, n: nat)
    requires n <= |b|
    ensures Feed(st, a + b + c, |a|, |a| + n) == Feed(st, b, 0, n)
  {
    if n == 0 {
    } else {
      FeedElsewhere(st, a, b, c, n - 1);
      assert (a + b + c)[|a| + n - 1] == b[n - 1];
    }
  }

  lemma {:induction false} RunAppend(st: Option<State>, a: string, b: string)
    ensures Run(st, a + b) == Run(Run(st, a), b)
  {
    var s := a + b;
    FeedSplits(st, s, 0, |a|, |s|);
    assert "" + a + b == s && a + b + "" == s;
    FeedElsewhere(st, "", a, b, |a|);
    FeedElsewhere(Run(st, a), a, b, "", |b|);
  }

  lemma {:induction false} RunOne(st: State, c: char)
    ensures Run(Some(st), [c]) == Step(st, c)
  {
    assert Feed(Some(st), [c], 0, 0) == Some(st);
  }

  /** Reading the text inside an object leaves the scanner as it was. */
  ghost predicate Invisible(text: string) {
    forall depth: int :: depth > 0 ==> Run(Some(State(depth, false, false)), text) == Some(State(depth, false, false))
  }

  ghost predicate InvisibleInString(text: string) {
    forall depth: int :: Run(Some(State(depth, true, false)), text) == Some(State(depth, true, false))
  }

  lemma {:induction false} InvisibleAppend(a: string, b: string)
    requires Invisible(a) && Invisible(b)
    ensures Invisible(a + b)
  {
    forall depth: int | depth > 0
      ensures Run(Some(State(depth, false, false)), a + b) == Some(State(depth, false, false))
    {
      RunAppend(Some(State(depth, false, false)), a, b);
    }
  }

  predicate Dull(s: string) {
    forall i :: 0 <= i < |s| ==> s[i] != '"' && s[i] != '{' && s[i] != '}'
  }

  /** Text without quotes and braces does nothing. */
  lemma {:induction false} DullIsInvisible(s: string)
    requires Dull(s)
    ensures Invisible(s)
  {
    forall depth: int | depth > 0
      ensures Run(Some(State(depth, false, false)), s) == Some(State(depth, false, false))
    {
      DullFeed(State(depth, false, false), s, |s|);
    }
  }

  lemma {:induction false} DullFeed(st: State, s: string, n: nat)
    requires n <= |s| && !st.inStr && !st.esc && Dull(s)
    ensures Feed(Some(st), s, 0, n) == Some(st)
  {
    if n == 0 {
    } else {
      DullFeed(st, s, n - 1);
    }
  }

  lemma {:induction false} BlankIsInvisible(s: string)
    requires Blank(s)
    ensures Invisible(s)
  {
    DullIsInvisible(s);
  }

  /** An escape, whatever it escapes, and any other legal character stay inside the string. */
  lemma {:induction false} PieceStaysInString(p: Piece)
    requires LegalPiece(p)
    ensures InvisibleInString(PrintPiece(p))
  {
    forall depth: int
      ensures Run(Some(State(depth, true, false)), PrintPiece(p)) == Some(State(depth, true, false))
    {
      var st := State(depth, true, false);
      match p {
        case Plain(c) => RunOne(st, c);
        case Escape(c) => EscapeStays(st, c);
        case Hex(a, b, c, d) =>
          EscapeStays(st, 'u');
          HexDigit(st, ['\\', 'u'], a);
          HexDigit(st, ['\\', 'u'] + [a], b);
          HexDigit(st, ['\\', 'u'] + [a] + [b], c);
          HexDigit(st, ['\\', 'u'] + [a] + [b] + [c], d);
          hide *;
          HexIsJoined(a, b, c, d);
      }
    }
  }

  lemma {:induction false} HexIsJoined(a: char, b: char, c: char, d: char)
    ensures PrintPiece(Hex(a, b, c, d)) == ['\\', 'u'] + [a] + [b] + [c] + [d]
  {
  }

  lemma {:induction false} EscapeStays(st: State, c: char)
    requires st.inStr && !st.esc
    ensures Run(Some(st), ['\\', c]) == Some(st)
  {
    assert ['\\'] + [c] == ['\\', c];
    RunAppend(Some(st), ['\\'], [c]);
    RunOne(st, '\\');
    RunOne(st.(esc := true), c);
  }

  lemma {:induction false} HexDigit(st: State, before: string, h: char)
    requires h in HEX && st.inStr && !st.esc && Run(Some(st), before) == Some(st)
    ensures Run(Some(st), before + [h]) == Some(st)
  {
    RunAppend(Some(st), before, [h]);
    RunOne(st, h);
  }

  lemma {:induction false} PiecesStayInString(s: seq<Piece>, n: nat)
    requires n <= |s| && LegalString(s)
    ensures InvisibleInString(PrintPieces(s, n))
  {
    if n == 0 {
      assert PrintPieces(s, 0) == "";
    } else {
      assert LegalPiece(s[n - 1]);
      PiecesStayInString(s, n - 1);
      PieceStaysInString(s[n - 1]);
      assert PrintPieces(s, n) == PrintPieces(s, n - 1) + PrintPiece(s[n - 1]);
      hide Run, Feed, Step, PrintPieces, PrintPiece, LegalPiece, LegalString;
      forall depth: int
        ensures Run(Some(State(depth, true, false)), PrintPieces(s, n)) == Some(State(depth, true, false))
      {
        RunAppend(Some(State(depth, true, false)), PrintPieces(s, n - 1), PrintPiece(s[n - 1]));
      }
    }
  }

  lemma {:induction false} StringIsInvisible(s: seq<Piece>)
    requires LegalString(s)
    ensures Invisible(PrintString(s))
  {
    PiecesStayInString(s, |s|);
    forall depth: int | depth > 0
      ensures Run(Some(State(depth, false, false)), PrintString(s)) == Some(State(depth, false, false))
    {
      var st, body := State(depth, false, false), PrintPieces(s, |s|);
      RunAppend(Some(st), "\"" + body, "\"");
      RunAppend(Some(st), "\"", body);
      RunOne(st, '"');
      RunOne(State(depth, true, false), '"');
      hide Run;
    }
  }

  lemma {:induction false} WordsAreDull()
    ensures Dull("null") && Dull("true") && Dull("false") && Dull("[") && Dull("]") && Dull(",") && Dull(":")
  {
  }

  lemma {:induction false} NumberIsDull(text: string)
    requires LegalScalar(Number(text))
    ensures Dull(text)
  {
  }

  lemma {:induction false} ScalarIsInvisible(s: Scalar)
    requires LegalScalar(s)
    ensures Invisible(PrintScalar(s))
  {
    match s {
      case Text(pieces) =>
        StringIsInvisible(pieces);
      case Number(text) =>
        NumberIsDull(text);
        hide LegalScalar, Dull, Invisible;
        DullIsInvisible(text);
      case _ =>
        WordsAreDull();
        hide Dull, Invisible;
        DullIsInvisible(PrintScalar(s));
    }
  }

  lemma {:induction false} ValueIsInvisible(v: Json)
    requires Legal(v)
    ensures Invisible(Print(v))
  {
    match v {
      case Leaf(s) =>
        ScalarIsInvisible(s);
      case Arr(items) =>
        ItemsAreInvisible(items);
        WordsAreDull();
        hide Dull, Invisible;
        DullIsInvisible("[");
        DullIsInvisible("]");
        InvisibleAppend("[", PrintItems(items));
        InvisibleAppend("[" + PrintItems(items), "]");
      case Obj(members) =>
        MembersAreInvisible(members);
        forall depth: int | depth > 0
          ensures Run(Some(State(depth, false, false)), Print(v)) == Some(State(depth, false, false))
        {
          OpenObject(depth, members);
          RunAppend(Some(State(depth, false, false)), "{" + PrintMembers(members), "}");
          RunOne(State(depth + 1, false, false), '}');
        }
    }
  }

  lemma {:induction false} OpenObject(depth: int, members: Members)
    requires depth >= 0 && Invisible(PrintMembers(members))
    ensures Run(Some(State(depth, false, false)), "{" + PrintMembers(members)) == Some(State(depth + 1, false, false))
  {
    hide PrintMembers, Feed, Run;
    RunAppend(Some(State(depth, false, false)), "{", PrintMembers(members));
    RunOne(State(depth, false, false), '{');
  }

  lemma {:induction false} ItemsAreInvisible(items: Items)
    requires LegalItems(items)
    ensures Invisible(PrintItems(items))
  {
    match items {
      case NoItems(ws) => BlankIsInvisible(ws);
      case Item(before, value, after, rest) =>
        BlankIsInvisible(before);
        ValueIsInvisible(value);
        BlankIsInvisible(after);
        InvisibleAppend(before, Print(value));
        InvisibleAppend(before + Print(value), after);
        if rest.Some? {
          ItemsAreInvisible(rest.value);
          WordsAreDull();
          DullIsInvisible(",");
          InvisibleAppend(before + Print(value) + after, ",");
          InvisibleAppend(before + Print(value) + after + ",", PrintItems(rest.value));
        }
    }
  }

  lemma {:induction false} MemberIsInvisible(before: string, key: seq<Piece>, colon: string, gap: string)
    requires Blank(before) && LegalString(key) && Blank(colon) && Blank(gap)
    ensures Invisible(PrintMember(before, key, colon, gap))
  {
    BlankIsInvisible(before);
    StringIsInvisible(key);
    BlankIsInvisible(colon);
    WordsAreDull();
    DullIsInvisible(":");
    BlankIsInvisible(gap);
    InvisibleAppend(before, PrintString(key));
    InvisibleAppend(before + PrintString(key), colon);
    InvisibleAppend(before + PrintString(key) + colon, ":");
    InvisibleAppend(before + PrintString(key) + colon + ":", gap);
  }

  lemma {:induction false} MembersAreInvisible(members: Members)
    requires LegalMembers(members)
    ensures Invisible(PrintMembers(members))
  {
    match members {
      case NoMembers(ws) => BlankIsInvisible(ws);
      case Member(before, key, colon, gap, value, after, rest) =>
        var head := PrintMember(before, key, colon, gap);
        MemberIsInvisible(before, key, colon, gap);
        ValueIsInvisible(value);
        BlankIsInvisible(after);
        InvisibleAppend(head, Print(value));
        InvisibleAppend(head + Print(value), after);
        if rest.Some? {
          MembersAreInvisible(rest.value);
          WordsAreDull();
          DullIsInvisible(",");
          InvisibleAppend(head + Print(value) + after, ",");
          InvisibleAppend(head + Print(value) + after + ",", PrintMembers(rest.value));
        }
    }
  }

  lemma {:induction false} ClosedStaysClosed(s: string, start: nat, i: nat, j: nat)
    requires start <= i <= j <= |s| && Feed(Some(FRESH), s, start, i).None?
    ensures Feed(Some(FRESH), s, start, j).None?
  {
    if i == j {
    } else {
      ClosedStaysClosed(s, start, i, j - 1);
    }
  }

  /** Read on its own, a printed object closes with its last character and not before. */
  lemma {:induction false} ObjectCloses(members: Members)
    requires LegalMembers(members)
    ensures var text := Print(Obj(members));
            && Feed(Some(FRESH), text, 0, |text| - 1).Some? && Feed(Some(FRESH), text, 0, |text|).None?
  {
    hide *;
    MembersAreInvisible(members);
    OpenObject(0, members);
    ClosesAfter("{" + PrintMembers(members));
    ObjectIsBraced(members);
  }

  lemma {:induction false} ObjectIsBraced(members: Members)
    ensures Print(Obj(members)) == "{" + PrintMembers(members) + "}"
  {
  }

  lemma {:induction false} ClosesAfter(open: string)
    requires Run(Some(State(0, false, false)), open) == Some(State(1, false, false))
    ensures Feed(Some(FRESH), open + "}", 0, |open|).Some? && Feed(Some(FRESH), open + "}", 0, |open + "}"|).None?
  {
    FeedElsewhere(Some(FRESH), "", open, "}", |open|);
    assert "" + open + "}" == open + "}";
  }

  /**
   Whatever is written around it, the scan of a printed object stops exactly at that object's
   closing brace, however many braces and quotes its strings hold.
   */
  lemma {:induction false} ScanStopsAtTheClosingBrace(prefix: string, members: Members, suffix: string, r: Scan)
    requires LegalMembers(members) && '{' !in prefix
    requires Scans(prefix + Print(Obj(members)) + suffix, r)
    ensures r == Found(|prefix|, |prefix| + |Print(Obj(members))| - 1)
  {
    var text := Print(Obj(members));
    var clean := prefix + text + suffix;
    ObjectCloses(members);
    assert text[0] == '{';
    hide Feed, Scans, Print;
    FeedElsewhere(Some(FRESH), prefix, text, suffix, |text|);
    FeedElsewhere(Some(FRESH), prefix, text, suffix, |text| - 1);
    assert clean[|prefix|] == '{' && clean[..|prefix|] == prefix;
    OneFirstBrace(clean, |prefix|, r);
    OneFirstClose(clean, |prefix|, |prefix| + |text| - 1, r);
  }

  lemma {:induction false} OneFirstBrace(clean: string, start: nat, r: Scan)
    requires FirstBrace(clean, start) && Scans(clean, r)
    ensures !r.NoBrace? && r.start == start
  {
    assert clean[start] in clean;
    if !r.NoBrace? {
      assert forall i :: 0 <= i < r.start ==> clean[i] in clean[..r.start];
      assert forall i :: 0 <= i < start ==> clean[i] in clean[..start];
    }
  }

  lemma {:induction false} OneFirstClose(clean: string, start: nat, end: nat, r: Scan)
    requires Scans(clean, r) && !r.NoBrace? && r.start == start && start <= end < |clean|
    requires Feed(Some(FRESH), clean, start, end).Some? && Feed(Some(FRESH), clean, start, end + 1).None?
    ensures r == Found(start, end)
  {
    ClosedStaysClosed(clean, start, end + 1, |clean|);
    if r.end < end {
      ClosedStaysClosed(clean, start, r.end + 1, end);
    } else if r.end > end {
      ClosedStaysClosed(clean, start, end + 1, r.end);
    }
  }

  /** `str.strip`, given which characters count as space. */
  function Strip(space: char -> bool, s: string): string {
    RStrip(space, LStrip(space, s))
  }

  function LStrip(space: char -> bool, s: string): string {
    if s != "" && space(s[0]) then LStrip(space, s[1..]) else s
  }

  function RStrip(space: char -> bool, s: string): string {
    if s != "" && space(s[|s| - 1]) then RStrip(space, s[..|s| - 1]) else s
  }

  lemma {:induction false} LStripStops(space: char -> bool, prefix: string, rest: string) returns (left: string)
    requires rest != "" && !space(rest[0])
    ensures LStrip(space, prefix + rest) == left + rest && forall c :: c in left ==> c in prefix
  {
    if prefix == "" {
      left := "";
      assert prefix + rest == rest && left + rest == rest;
    } else if space(prefix[0]) {
      left := LStripStops(space, prefix[1..], rest);
      assert (prefix + rest)[1..] == prefix[1..] + rest;
    } else {
      left := prefix;
    }
  }

  lemma {:induction false} RStripStops(space: char -> bool, rest: string, suffix: string) returns (right: string)
    requires rest != "" && !space(rest[|rest| - 1])
    ensures RStrip(space, rest + suffix) == rest + right
  {
    if suffix == "" {
      right := "";
      assert rest + suffix == rest && rest + right == rest;
    } else if space(suffix[|suffix| - 1]) {
      right := RStripStops(space, rest, suffix[..|suffix| - 1]);
      assert (rest + suffix)[..|rest + suffix| - 1] == rest + suffix[..|suffix| - 1];
    } else {
      right := suffix;
    }
  }

  /**
   A reply without code fences, with a JSON object after any text free of opening braces: what
   `json.loads` is handed is that object, character for character.
   */
  lemma {:induction false} HandsOverTheObject(space: char -> bool, prefix: string, members: Members, suffix: string,
                                              r: Scan)
    requires LegalMembers(members) && '{' !in prefix && !space('{') && !space('}')
    requires Scans(Strip(space, prefix + Print(Obj(members)) + suffix), r)
    ensures r.Found? && Strip(space, prefix + Print(Obj(members)) + suffix)[r.start..r.end + 1] == Print(Obj(members))
  {
    var text := Print(Obj(members));
    assert prefix + text + suffix == prefix + (text + suffix);
    var left := LStripStops(space, prefix, text + suffix);
    assert left + (text + suffix) == left + text + suffix;
    assert (left + text)[|left + text| - 1] == '}';
    var right := RStripStops(space, left + text, suffix);
    ScanStopsAtTheClosingBrace(left, members, right, r);
    assert (left + text + right)[|left|..|left| + |text|] == text;
  }
}
