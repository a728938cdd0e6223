/** Options, results and the text normalizations the graph front ends share. */
module Text {

  datatype Option<+T> = None | Some(value: T)

  datatype Result<+T, +E> = Ok(value: T) | Err(error: E)

  /** What the front ends take from the platform: Unicode lower-casing, the hash of
      normalized content, the ULID text codec, and which numbers are finite as an f32.
      Nothing is assumed of `lower` and `hash`, so whatever is proved over a `Codec` holds
      for every hash, even a constant one. */
  datatype Codec = Codec(
    lower: string -> string,
    hash: string -> string,
    parseId: string -> Option<nat>,
    showId: nat -> string,
    fitsF32: real -> bool)

  /** Printing an id and parsing it back gives the same id. */
  ghost predicate RoundTrips(tx: Codec) {
    forall i: nat :: tx.parseId(tx.showId(i)) == Some(i)
  }

  /** The Unicode White_Space property. */
  predicate IsSpace(c: char) {
    || '\U{0009}' <= c <= '\U{000D}'
    || c == ' ' || c == '\U{0085}' || c == '\U{00A0}' || c == '\U{1680}'
    || '\U{2000}' <= c <= '\U{200A}'
    || c == '\U{2028}' || c == '\U{2029}' || c == '\U{202F}' || c == '\U{205F}' || c == '\U{3000}'
  }

  /** Separators of an edge type: white space, hyphens and underscores. */
  predicate IsTypeSeparator(c: char) {
    IsSpace(c) || c == '-' || c == '_'
  }

  function TrimStart(space: char -> bool, s: string): string {
    if s != [] && space(s[0]) then TrimStart(space, s[1..]) else s
  }

  function TrimEnd(space: char -> bool, s: string): string
    decreases |s|
  {
    if s != [] && space(s[|s| - 1]) then TrimEnd(space, s[..|s| - 1]) else s
  }

  /** `s` without white space at either end. */
  function Trim(space: char -> bool, s: string): string {
    TrimEnd(space, TrimStart(space, s))
  }

  /** The longest prefix of `s` without a separator. */
  function FirstWord(sep: char -> bool, s: string): (w: string)
    ensures w <= s
    ensures forall c | c in w :: !sep(c)
    ensures |w| < |s| ==> sep(s[|w|])
  {
    if s == [] || sep(s[0]) then [] else [s[0]] + FirstWord(sep, s[1..])
  }

  /** The maximal separator-free runs of `s`, in order. */
  function Words(sep: char -> bool, s: string): (ws: seq<string>)
    ensures forall w | w in ws :: w != [] && forall c | c in w :: !sep(c)
    decreases |s|
  {
    if s == [] then []
    else if sep(s[0]) then Words(sep, s[1..])
    else
      var w := FirstWord(sep, s);
      [w] + Words(sep, s[|w|..])
  }

  function Join(ws: seq<string>, glue: string): string {
    if |ws| == 0 then ""
    else if |ws| == 1 then ws[0]
    else ws[0] + glue + Join(ws[1..], glue)
  }

  /** Trim and collapse white space: the dedup form of memory content. */
  function Collapse(s: string): string {
    Join(Words(IsSpace, s), " ")
  }

  /** The form under which names are indexed: collapsed and lower-cased. */
  function NameKey(tx: Codec, name: string): string {
    tx.lower(Collapse(name))
  }

  function ContentHash(tx: Codec, content: string): string {
    tx.hash(Collapse(content))
  }

  lemma {:induction false} FirstWordOf(sep: char -> bool, w: string, rest: string)
    requires forall c | c in w :: !sep(c)
    requires rest == [] || sep(rest[0])
    ensures FirstWord(sep, w + rest) == w
  {
    if w == [] {
      assert w + rest == rest;
    } else {
      assert (w + rest)[1..] == w[1..] + rest;
      FirstWordOf(sep, w[1..], rest);
    }
  }

  /** Splitting what was joined with a separator gives the words back. */
  lemma {:induction false} WordsOfJoin(sep: char -> bool, ws: seq<string>, glue: char)
    requires sep(glue)
    requires forall w | w in ws :: w != [] && forall c | c in w :: !sep(c)
    ensures Words(sep, Join(ws, [glue])) == ws
  {
    if |ws| == 0 {
    } else {
      var w := ws[0];
      assert w in ws;
      var rest := if |ws| == 1 then "" else [glue] + Join(ws[1..], [glue]);
      var s := Join(ws, [glue]);
      assert s == w + rest;
      FirstWordOf(sep, w, rest);
      assert s[|w|..] == rest;
      assert w[0] in w;
      assert s[0] == w[0];
      if |ws| > 1 {
        assert rest[1..] == Join(ws[1..], [glue]);
        assert forall v | v in ws[1..] :: v in ws;
        WordsOfJoin(sep, ws[1..], glue);
      }
      assert Words(sep, s) == [w] + Words(sep, rest);
      assert [w] + ws[1..] == ws;
    }
  }

  /** Normalizing content twice changes nothing, so a stored normalized form dedups
      against the text it came from. */
  lemma CollapseIdempotent(s: string)
    ensures Collapse(Collapse(s)) == Collapse(s)
  {
    WordsOfJoin(IsSpace, Words(IsSpace, s), ' ');
  }

  /** Canonical edge type: lower-cased, runs of separators collapsed to one underscore. */
  function EdgeType(tx: Codec, raw: string): Result<string, string> {
    var ty := Join(Words(IsTypeSeparator, tx.lower(raw)), "_");
    if ty == "" then Err("edge type is empty once normalized") else Ok(ty)
  }

  lemma {:induction false} JoinSnoc(ws: seq<string>, w: string, glue: string)
    ensures Join(ws + [w], glue) == if ws == [] then w else Join(ws, glue) + glue + w
  {
    if |ws| <= 1 {
    } else {
      assert (ws + [w])[1..] == ws[1..] + [w];
      JoinSnoc(ws[1..], w, glue);
    }
  }

  /** Two texts collapse alike exactly if they have the same words. */
  lemma CollapseIsWords(a: string, b: string)
    ensures Collapse(a) == Collapse(b) <==> Words(IsSpace, a) == Words(IsSpace, b)
    ensures Words(IsSpace, Collapse(a)) == Words(IsSpace, a)
  {
    WordsOfJoin(IsSpace, Words(IsSpace, a), ' ');
    WordsOfJoin(IsSpace, Words(IsSpace, b), ' ');
  }

  /** White space only as single blanks between other characters. */
  predicate IsTidy(s: string) {
    forall i | 0 <= i < |s| && IsSpace(s[i]) :: s[i] == ' ' && 0 < i < |s| - 1 && !IsSpace(s[i + 1])
  }

  lemma {:induction false} JoinIsTidy(ws: seq<string>)
    requires forall w | w in ws :: w != [] && forall c | c in w :: !IsSpace(c)
    ensures IsTidy(Join(ws, " ")) && (ws != [] ==> Join(ws, " ") != "" && !IsSpace(Join(ws, " ")[0]))
  {
    if |ws| == 1 {
      assert ws[0] in ws;
    } else if |ws| > 1 {
      var w, rest := ws[0], Join(ws[1..], " ");
      assert w in ws && ws[1] in ws[1..];
      assert forall v | v in ws[1..] :: v in ws;
      JoinIsTidy(ws[1..]);
      var s := Join(ws, " ");
      assert s == w + " " + rest;
      assert forall i | 0 <= i < |w| :: s[i] == w[i] && w[i] in w && !IsSpace(s[i]);
      forall i | 0 <= i < |s| && IsSpace(s[i]) ensures s[i] == ' ' && 0 < i < |s| - 1 && !IsSpace(s[i + 1]) {
        assert i >= |w|;
        if i == |w| {
          assert s[i + 1] == rest[0];
        } else {
          assert s[i] == rest[i - |w| - 1];
          assert s[i + 1] == rest[i - |w|];
        }
      }
      assert s[0] == w[0] && w[0] in w;
    }
  }

  lemma CollapsedIsTidy(s: string)
    ensures IsTidy(Collapse(s))
  {
    JoinIsTidy(Words(IsSpace, s));
  }

  lemma {:induction false} TrimStartCuts(space: char -> bool, s: string)
    ensures var r := TrimStart(space, s);
            |r| <= |s| && s[|s| - |r|..] == r && (forall i | 0 <= i < |s| - |r| :: space(s[i])) && (r != "" ==> !space(r[0]))
  {
    if s != [] && space(s[0]) {
      TrimStartCuts(space, s[1..]);
      var r := TrimStart(space, s[1..]);
      forall i | 0 <= i < |s| - |r| ensures space(s[i]) {
        if i > 0 { assert s[i] == s[1..][i - 1]; }
      }
      assert s[|s| - |r|..] == s[1..][|s[1..]| - |r|..];
    }
  }

  lemma {:induction false} TrimEndCuts(space: char -> bool, s: string)
    ensures var r := TrimEnd(space, s);
            |r| <= |s| && s[..|r|] == r && (forall i | |r| <= i < |s| :: space(s[i])) && (r != "" ==> !space(r[|r| - 1]))
    decreases |s|
  {
    if s != [] && space(s[|s| - 1]) {
      TrimEndCuts(space, s[..|s| - 1]);
    }
  }

  /** `s` is `r` between two stretches of white space. */
  predicate IsCut(space: char -> bool, s: string, before: nat, r: string) {
    && before + |r| <= |s|
    && s[before..before + |r|] == r
    && (forall i | 0 <= i < before :: space(s[i]))
    && (forall i | before + |r| <= i < |s| :: space(s[i]))
  }

  /** Trimming takes white space off both ends, all of it and nothing else. */
  lemma TrimCuts(space: char -> bool, s: string)
    ensures exists before: nat :: IsCut(space, s, before, Trim(space, s))
    ensures var r := Trim(space, s); r != "" ==> !space(r[0]) && !space(r[|r| - 1])
  {
    var r1 := TrimStart(space, s);
    TrimStartCuts(space, s);
    TrimEndCuts(space, r1);
    var before: nat := |s| - |r1|;
    BothEnds(space, s, before, r1, TrimEnd(space, r1));
    assert IsCut(space, s, before, Trim(space, s));
  }

  lemma BothEnds(space: char -> bool, s: string, before: nat, r1: string, r: string)
    requires before + |r1| == |s| && s[before..] == r1 && forall i | 0 <= i < before :: space(s[i])
    requires |r| <= |r1| && r1[..|r|] == r && forall i | |r| <= i < |r1| :: space(r1[i])
    ensures IsCut(space, s, before, r)
    ensures r != "" ==> r[0] == r1[0]
  {
    forall i | before + |r| <= i < |s| ensures space(s[i]) {
      assert s[i] == r1[i - before];
    }
  }

  lemma WordAhead(sep: char -> bool, w: string, rest: string)
    requires w != "" && (forall c | c in w :: !sep(c)) && (rest == [] || sep(rest[0]))
    ensures Words(sep, w + rest) == [w] + Words(sep, rest)
  {
    FirstWordOf(sep, w, rest);
    assert w[0] in w && (w + rest)[|w|..] == rest;
  }

  lemma Grouped<T>(a: seq<T>, b: seq<T>, c: seq<T>, d: seq<T>)
    ensures a + b + c + d == a + (b + c + d)
  {
  }

  lemma SplitAfter(sep: char -> bool, w: string, tail: string, c: char, b: string)
    requires sep(c) && w != "" && (forall x | x in w :: !sep(x)) && (tail == "" || sep(tail[0]))
    requires Words(sep, tail + [c] + b) == Words(sep, tail) + Words(sep, b)
    ensures Words(sep, w + tail + [c] + b) == Words(sep, w + tail) + Words(sep, b)
  {
    var rest := tail + [c] + b;
    assert rest[0] == (if tail == "" then c else tail[0]);
    Grouped(w, tail, [c], b);
    WordAhead(sep, w, rest);
    WordAhead(sep, w, tail);
    Grouped([w], Words(sep, tail), [], Words(sep, b));
    assert Words(sep, tail) + [] == Words(sep, tail) && [w] + Words(sep, tail) + [] == [w] + Words(sep, tail);
  }

  /** What a word is: a separator parts the words before it from those after it, and a text
      without separators is one word. */
  lemma {:induction false} WordsSplit(sep: char -> bool, a: string, c: char, b: string)
    requires sep(c)
    ensures Words(sep, a + [c] + b) == Words(sep, a) + Words(sep, b)
    decreases |a|
  {
    var s := a + [c] + b;
    if a == [] {
      assert s[1..] == b;
    } else if sep(a[0]) {
      assert s[1..] == a[1..] + [c] + b;
      WordsSplit(sep, a[1..], c, b);
    } else {
      var w, tail := FirstWord(sep, a), a[|FirstWord(sep, a)|..];
      assert a == w + tail && w != "";
      WordsSplit(sep, tail, c, b);
      SplitAfter(sep, w, tail, c, b);
    }
  }

  lemma OneWord(sep: char -> bool, w: string)
    requires forall c | c in w :: !sep(c)
    ensures Words(sep, w) == if w == "" then [] else [w]
  {
    FirstWordOf(sep, w, []);
    assert w + [] == w;
  }
}
