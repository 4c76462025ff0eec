/**
 The small lexers of scripts/check_cleanup_contract.py: _strip_js_comments and
 _find_matching_brace.

 Each loop is proved against a reading of the text that does not follow the loop: a
 recursive grammar of quoted literals and comments, and a fold over single characters.
 */
module JsScan {
  import opened Options

  type Quote = Option<char>

  predicate IsQuote(c: char) {
    c == '\'' || c == '"' || c == '`'
  }

  predicate StartsWith(s: string, p: string) {
    |p| <= |s| && s[..|p|] == p
  }

  /** str.find from an index; the length of the text when there is no occurrence. */
  function Find(s: string, p: string, from: nat): (r: nat)
    requires p != [] && from <= |s|
    ensures from <= r <= |s|
    ensures r < |s| ==> StartsWith(s[r..], p)
    ensures forall k :: from <= k < r ==> !StartsWith(s[k..], p)
    decreases |s| - from
  {
    if from == |s| || StartsWith(s[from..], p) then from else Find(s, p, from + 1)
  }

  /** How much of the text the comment at its start takes up. */
  function LineEnd(s: string): (n: nat)
    requires StartsWith(s, "//")
    ensures 2 <= n <= |s| && (n < |s| ==> s[n] == '\n')
  {
    var n := Find(s, "\n", 0);
    assert s[..2] == "//" && s[..2][0] == s[0] && s[..2][1] == s[1];
    assert !StartsWith(s[0..], "\n") && !StartsWith(s[1..], "\n") by {
      assert s[0..][..1][0] == '/' && s[1..][..1][0] == '/';
    }
    assert n < |s| ==> s[n..][..1] == "\n" && s[n..][0] == s[n];
    n
  }

  function BlockEnd(s: string): (n: nat)
    requires StartsWith(s, "/*")
    ensures 2 <= n <= |s|
  {
    var n := Find(s, "*/", 2);
    if n == |s| then |s| else n + 2
  }

  /** How many characters the lexer takes together inside a quote. */
  function Unit(s: string): nat
    requires s != []
  {
    if s[0] == '\\' && |s| > 1 then 2 else 1
  }

  /** The quote after taking that unit. */
  function After(q: char, s: string): Quote
    requires s != []
  {
    if Unit(s) == 1 && s[0] == q then None else Some(q)
  }

  function Strip(q: Quote, s: string): string
    decreases |s|
  {
    if s == [] then []
    else if q.Some? then s[..Unit(s)] + Strip(After(q.value, s), s[Unit(s)..])
    else if IsQuote(s[0]) then [s[0]] + Strip(Some(s[0]), s[1..])
    else if StartsWith(s, "//") then "\n" + Strip(None, s[LineEnd(s)..])
    else if StartsWith(s, "/*") then " " + Strip(None, s[BlockEnd(s)..])
    else [s[0]] + Strip(None, s[1..])
  }

  /** The text that one turn of the loop emits, the quote after it, and how far it moves. */
  datatype Turn = Turn(piece: string, next: Quote, width: nat)

  function Step(q: Quote, s: string): (r: Turn)
    requires s != []
    ensures 0 < r.width <= |s|
  {
    if q.Some? then Turn(s[..Unit(s)], After(q.value, s), Unit(s))
    else if IsQuote(s[0]) then Turn([s[0]], Some(s[0]), 1)
    else if StartsWith(s, "//") then Turn("\n", None, LineEnd(s))
    else if StartsWith(s, "/*") then Turn(" ", None, BlockEnd(s))
    else Turn([s[0]], None, 1)
  }

  lemma StepThenRest(q: Quote, s: string)
    requires s != []
    ensures Strip(q, s) == Step(q, s).piece + Strip(Step(q, s).next, s[Step(q, s).width..])
  {
  }

  lemma OneTurn(source: string, index: nat, q: Quote, result: string)
    requires index < |source|
    ensures var turn := Step(q, source[index..]);
            && index + turn.width <= |source|
            && result + Strip(q, source[index..]) == (result + turn.piece) + Strip(turn.next, source[index + turn.width..])
  {
    var turn := Step(q, source[index..]);
    StepThenRest(q, source[index..]);
    assert source[index..][turn.width..] == source[index + turn.width..];
    Appended(result, turn.piece, Strip(turn.next, source[index + turn.width..]));
  }

  lemma Appended(done: string, piece: string, rest: string)
    ensures done + (piece + rest) == (done + piece) + rest
  {
  }

  /** _strip_js_comments. */
  method StripComments(source: string) returns (result: string)
    ensures result == Strip(None, source)
  {
    result := "";
    var index := 0;
    var quote: Quote := None;
    assert source[0..] == source;
    while index < |source|
      invariant 0 <= index <= |source|
      invariant Strip(None, source) == result + Strip(quote, source[index..])
    {
      var turn := Step(quote, source[index..]);
      OneTurn(source, index, quote, result);
      result := result + turn.piece;
      quote, index := turn.next, index + turn.width;
    }
    assert source[index..] == [];
  }

  /** No comment starts outside a quoted literal. */
  predicate CommentFree(q: Quote, s: string)
    decreases |s|
  {
    if s == [] then true
    else if q.Some? then CommentFree(After(q.value, s), s[Unit(s)..])
    else if IsQuote(s[0]) then CommentFree(Some(s[0]), s[1..])
    else !StartsWith(s, "//") && !StartsWith(s, "/*") && CommentFree(None, s[1..])
  }

  /** The quoted literals in order, each with its quotes; `open` is the one being read. */
  function Literals(q: Quote, open: string, s: string): seq<string>
    decreases |s|
  {
    if s == [] then (if q.Some? then [open] else [])
    else if q.Some? then
      var more := open + s[..Unit(s)];
      if After(q.value, s).None? then [more] + Literals(None, [], s[Unit(s)..]) else Literals(q, more, s[Unit(s)..])
    else if IsQuote(s[0]) then Literals(Some(s[0]), [s[0]], s[1..])
    else if StartsWith(s, "//") then Literals(None, [], s[LineEnd(s)..])
    else if StartsWith(s, "/*") then Literals(None, [], s[BlockEnd(s)..])
    else Literals(None, [], s[1..])
  }

  /** Outside quotes, the first character is kept or replaced by white space. */
  lemma HeadOfStrip(s: string)
    ensures Strip(None, s) == [] <==> s == []
    ensures s != [] ==> Strip(None, s)[0] == s[0] || Strip(None, s)[0] == '\n' || Strip(None, s)[0] == ' '
  {
  }

  /** A kept slash never meets a slash or a star that was not next to it before. */
  lemma KeptSlash(s: string)
    requires s != [] && !IsQuote(s[0]) && !StartsWith(s, "//") && !StartsWith(s, "/*")
    ensures var t := [s[0]] + Strip(None, s[1..]); !StartsWith(t, "//") && !StartsWith(t, "/*")
  {
    HeadOfStrip(s[1..]);
    if |s| > 1 {
      assert s[..2] == [s[0], s[1]];
      assert s[1..][0] == s[1];
    }
    var t := [s[0]] + Strip(None, s[1..]);
    if |t| > 1 { assert t[..2] == [t[0], t[1]]; }
  }

  /** A quoted unit is the same unit in front of anything that is empty just when its rest is. */
  lemma SameUnit(s: string, t: string)
    requires s != [] && (t == [] <==> s[Unit(s)..] == [])
    ensures var u := s[..Unit(s)] + t;
            u != [] && Unit(u) == Unit(s) && u[..Unit(u)] == s[..Unit(s)] && u[Unit(u)..] == t
            && forall q :: After(q, u) == After(q, s)
  {
    var u := s[..Unit(s)] + t;
    assert u[0] == s[0];
  }

  lemma {:induction false} NothingVanishes(q: Quote, s: string)
    ensures Strip(q, s) == [] <==> s == []
  {
  }

  /** Every comment is gone, the result is no longer than the text, and what is quoted is
      copied unchanged, literal by literal. */
  lemma {:induction false} StripIsFaithful(q: Quote, open: string, s: string)
    requires q.None? ==> open == []
    ensures CommentFree(q, Strip(q, s))
    ensures |Strip(q, s)| <= |s|
    ensures Literals(q, open, Strip(q, s)) == Literals(q, open, s)
    decreases |s|
  {
    if s == [] {
    } else if q.Some? {
      var n, r := Unit(s), After(q.value, s);
      var more := open + s[..n];
      StripIsFaithful(r, if r.None? then [] else more, s[n..]);
      NothingVanishes(r, s[n..]);
      SameUnit(s, Strip(r, s[n..]));
    } else if IsQuote(s[0]) {
      StripIsFaithful(Some(s[0]), [s[0]], s[1..]);
      assert Strip(q, s)[1..] == Strip(Some(s[0]), s[1..]);
    } else if StartsWith(s, "//") {
      var t := Strip(None, s[LineEnd(s)..]);
      StripIsFaithful(None, [], s[LineEnd(s)..]);
      assert Strip(q, s) == "\n" + t && ("\n" + t)[1..] == t && ("\n" + t)[0] == '\n';
      NotAComment("\n" + t);
    } else if StartsWith(s, "/*") {
      var t := Strip(None, s[BlockEnd(s)..]);
      StripIsFaithful(None, [], s[BlockEnd(s)..]);
      assert Strip(q, s) == " " + t && (" " + t)[1..] == t && (" " + t)[0] == ' ';
      NotAComment(" " + t);
    } else {
      StripIsFaithful(None, [], s[1..]);
      KeptSlash(s);
      assert Strip(q, s)[1..] == Strip(None, s[1..]);
    }
  }

  lemma NotAComment(s: string)
    requires s != [] && s[0] != '/'
    ensures !StartsWith(s, "//") && !StartsWith(s, "/*")
  {
    if |s| > 1 { assert s[..2] == [s[0], s[1]]; }
  }

  /** Text without comments, and only such text, is left alone. */
  lemma UnchangedExactlyWhenCommentFree(s: string)
    ensures Strip(None, s) == s <==> CommentFree(None, s)
  {
    StripIsFaithful(None, [], s);
    if CommentFree(None, s) { KeepsCommentFree(None, s); }
  }

  lemma {:induction false} KeepsCommentFree(q: Quote, s: string)
    requires CommentFree(q, s)
    ensures Strip(q, s) == s
    decreases |s|
  {
    if s == [] {
    } else if q.Some? {
      KeepsCommentFree(After(q.value, s), s[Unit(s)..]);
    } else if IsQuote(s[0]) {
      KeepsCommentFree(Some(s[0]), s[1..]);
    } else {
      KeepsCommentFree(None, s[1..]);
    }
  }

  /** The text without its comments and without the blanks and line ends outside quotes. */
  function Dense(q: Quote, s: string): string
    decreases |s|
  {
    if s == [] then []
    else if q.Some? then s[..Unit(s)] + Dense(After(q.value, s), s[Unit(s)..])
    else if IsQuote(s[0]) then [s[0]] + Dense(Some(s[0]), s[1..])
    else if StartsWith(s, "//") then Dense(None, s[LineEnd(s)..])
    else if StartsWith(s, "/*") then Dense(None, s[BlockEnd(s)..])
    else (if s[0] == ' ' || s[0] == '\n' then [] else [s[0]]) + Dense(None, s[1..])
  }

  /** Nothing but comments is taken away: every other character stays, in order. */
  lemma {:induction false} OnlyCommentsGo(q: Quote, s: string)
    ensures Dense(q, Strip(q, s)) == Dense(q, s)
    decreases |s|
  {
    if s == [] {
    } else if q.Some? {
      var r, rest := After(q.value, s), s[Unit(s)..];
      OnlyCommentsGo(r, rest);
      NothingVanishes(r, rest);
      SameUnit(s, Strip(r, rest));
    } else if IsQuote(s[0]) {
      OnlyCommentsGo(Some(s[0]), s[1..]);
      assert Strip(q, s)[1..] == Strip(Some(s[0]), s[1..]);
    } else if StartsWith(s, "//") {
      var t := Strip(None, s[LineEnd(s)..]);
      OnlyCommentsGo(None, s[LineEnd(s)..]);
      assert Strip(q, s) == "\n" + t && ("\n" + t)[1..] == t && ("\n" + t)[0] == '\n';
      NotAComment("\n" + t);
    } else if StartsWith(s, "/*") {
      var t := Strip(None, s[BlockEnd(s)..]);
      OnlyCommentsGo(None, s[BlockEnd(s)..]);
      assert Strip(q, s) == " " + t && (" " + t)[1..] == t && (" " + t)[0] == ' ';
      NotAComment(" " + t);
    } else {
      OnlyCommentsGo(None, s[1..]);
      KeptSlash(s);
      assert Strip(q, s)[1..] == Strip(None, s[1..]);
    }
  }

  /** Stripping twice is stripping once. */
  lemma StripIsIdempotent(s: string)
    ensures Strip(None, Strip(None, s)) == Strip(None, s)
  {
    StripIsFaithful(None, [], s);
    KeepsCommentFree(None, Strip(None, s));
  }

  // ---- _find_matching_brace ----

  /** What a single character means to the lexer, read one character at a time. */
  datatype State = Plain | Quoted(q: char) | Escaped(q: char)

  function Next(st: State, c: char): State {
    match st
    case Plain => if IsQuote(c) then Quoted(c) else Plain
    case Quoted(q) => if c == '\\' then Escaped(q) else if c == q then Plain else Quoted(q)
    case Escaped(q) => Quoted(q)
  }

  /** The state before reading position `end`, having started plain at `from`. */
  function StateAt(s: string, from: nat, end: nat): State
    requires from <= end <= |s|
    decreases end
  {
    if from == end then Plain else Next(StateAt(s, from, end - 1), s[end - 1])
  }

  /** Opening minus closing braces outside quotes in `s[from..end]`. */
  function Depth(s: string, from: nat, end: nat): int
    requires from <= end <= |s|
    decreases end
  {
    if from == end then 0
    else Depth(s, from, end - 1)
         + (if StateAt(s, from, end - 1) != Plain then 0
            else if s[end - 1] == '{' then 1 else if s[end - 1] == '}' then -1 else 0)
  }

  /** A closing brace outside quotes that brings the depth to zero. */
  predicate Balances(s: string, from: nat, k: nat)
    requires from <= k < |s|
  {
    StateAt(s, from, k) == Plain && s[k] == '}' && Depth(s, from, k + 1) == 0
  }

  /** _find_matching_brace: the first such brace, or there is none. */
  method FindMatchingBrace(source: string, opening: nat) returns (r: Option<nat>)
    requires opening <= |source|
    ensures r.Some? ==> opening <= r.value < |source| && Balances(source, opening, r.value)
                        && forall k :: opening <= k < r.value ==> !Balances(source, opening, k)
    ensures r.None? ==> forall k :: opening <= k < |source| ==> !Balances(source, opening, k)
  {
    var depth, index := 0, opening;
    var quote: Quote := None;
    while index < |source|
      invariant opening <= index <= |source|
      invariant depth == Depth(source, opening, index)
      invariant index < |source| ==> StateAt(source, opening, index) == if quote.Some? then Quoted(quote.value) else Plain
      invariant forall k :: opening <= k < index ==> !Balances(source, opening, k)
    {
      var c := source[index];
      if quote.Some? {
        if c == '\\' && index + 1 < |source| {
          assert StateAt(source, opening, index + 1) == Escaped(quote.value);
          index := index + 2;
        } else {
          if c == quote.value { quote := None; }
          index := index + 1;
        }
      } else {
        if IsQuote(c) {
          quote := Some(c);
        } else if c == '{' {
          depth := depth + 1;
        } else if c == '}' {
          depth := depth - 1;
          if depth == 0 { return Some(index); }
        }
        index := index + 1;
      }
    }
    r := None;
  }

  /** Starting on a brace, the depth stays positive until the match: what lies between the
      two is nested properly. */
  lemma {:induction false} NestedInside(s: string, opening: nat, k: nat)
    requires opening < k <= |s| && s[opening] == '{'
    requires forall j :: opening <= j < k ==> !Balances(s, opening, j)
    ensures Depth(s, opening, k) > 0
    decreases k
  {
    if k == opening + 1 {
      assert StateAt(s, opening, opening) == Plain && Depth(s, opening, opening) == 0;
    } else {
      NestedInside(s, opening, k - 1);
      assert !Balances(s, opening, k - 1);
    }
  }
}
