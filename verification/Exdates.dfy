/** Splitting EXDATE properties: splitMultiValueEXDATEs of internal/calendar/caldav.go. */
module Exdates {
  import opened Sequences

  datatype Prop = Prop(name: string, value: string, params: map<string, seq<string>>)

  const EXDATE := "EXDATE"

  /** unicode.IsSpace */
  predicate IsSpace(c: char) {
    var u := c as int;
    9 <= u <= 13 || u == 32 || u == 0x85 || u == 0xA0 || u == 0x1680 || 0x2000 <= u <= 0x200A
    || u == 0x2028 || u == 0x2029 || u == 0x202F || u == 0x205F || u == 0x3000
  }

  function TrimLeft(s: string): string {
    if s != [] && IsSpace(s[0]) then TrimLeft(s[1..]) else s
  }

  function TrimRight(s: string): string {
    if s != [] && IsSpace(s[|s| - 1]) then TrimRight(s[..|s| - 1]) else s
  }

  function TrimSpace(s: string): string {
    TrimRight(TrimLeft(s))
  }

  /** strings.Split(s, ",") */
  function Split(s: string): (parts: seq<string>)
    ensures |parts| >= 1
  {
    if s == [] then [[]]
    else
      var rest := Split(s[1..]);
      if s[0] == ',' then [[]] + rest else [[s[0]] + rest[0]] + rest[1..]
  }

  function Joined(parts: seq<string>): string
    requires |parts| >= 1
  {
    if |parts| == 1 then parts[0] else parts[0] + "," + Joined(parts[1..])
  }

  /** The pieces are exactly the text between the commas. */
  lemma {:induction false} SplitIsBetweenCommas(s: string)
    ensures Joined(Split(s)) == s && forall p :: p in Split(s) ==> ',' !in p
  {
    if s != [] {
      SplitIsBetweenCommas(s[1..]);
      var rest := Split(s[1..]);
      if s[0] == ',' {
        assert Split(s)[1..] == rest;
      } else {
        assert Split(s)[1..] == rest[1..];
        assert rest[0] in rest;
      }
      assert s == [s[0]] + s[1..];
    }
  }

  lemma {:induction false} SplitWithoutComma(s: string)
    requires ',' !in s
    ensures Split(s) == [s]
  {
    if s != [] {
      SplitWithoutComma(s[1..]);
      assert s == [s[0]] + s[1..];
    }
  }

  // ---------- The meaning of a property list ----------

  /** One excluded date with the property it came from. */
  function PieceTokens(p: Prop, pieces: seq<string>): seq<Prop> {
    if pieces == [] then []
    else
      var t := TrimSpace(pieces[|pieces| - 1]);
      PieceTokens(p, pieces[..|pieces| - 1]) + if t != "" then [p.(value := t)] else []
  }

  /** The trimmed non-empty pieces of one comma-separated value. */
  function ValueTokens(p: Prop): seq<Prop> {
    PieceTokens(p, Split(p.value))
  }

  /** The dates that the properties exclude, in order. */
  function Tokens(props: seq<Prop>): seq<Prop> {
    FlatMap(props, ValueTokens)
  }

  predicate NeedsSplit(props: seq<Prop>) {
    exists i :: 0 <= i < |props| && ',' in props[i].value
  }

  function SplitExdates(props: seq<Prop>): seq<Prop> {
    if NeedsSplit(props) then Tokens(props) else props
  }

  /** The inner loop, internal/calendar/caldav.go:334-341. */
  method AppendPieces(sofar: seq<Prop>, p: Prop) returns (expanded: seq<Prop>)
    ensures expanded == sofar + ValueTokens(p)
  {
    expanded := sofar;
    var parts := Split(p.value);
    for k := 0 to |parts|
      invariant expanded == sofar + PieceTokens(p, parts[..k])
    {
      var part := TrimSpace(parts[k]);
      assert parts[..k + 1][..k] == parts[..k];
      if part != "" {
        expanded := expanded + [Prop(p.name, part, p.params)];
      }
    }
    assert parts[..|parts|] == parts;
  }

  class Component {
    var props: map<string, seq<Prop>>

    constructor (props: map<string, seq<Prop>>)
      ensures this.props == props
    {
      this.props := props;
    }

    /** internal/calendar/caldav.go:318-344; a missing key reads as an empty list. */
    method SplitMultiValueEXDATEs()
      modifies this
      ensures EXDATE !in old(props) ==> props == old(props)
      ensures EXDATE in old(props) ==> props == old(props)[EXDATE := SplitExdates(old(props)[EXDATE])]
    {
      if EXDATE !in props || |props[EXDATE]| == 0 {
        assert EXDATE in props ==> props[EXDATE := []] == props;
        return;
      }
      var exdates := props[EXDATE];
      var needsSplit := false;
      for i := 0 to |exdates|
        invariant !needsSplit && forall j :: 0 <= j < i ==> ',' !in exdates[j].value
      {
        if ',' in exdates[i].value {
          needsSplit := true;
          break;
        }
      }
      assert needsSplit <==> NeedsSplit(exdates);
      if !needsSplit {
        assert props == props[EXDATE := exdates];
        return;
      }
      var expanded := [];
      for i := 0 to |exdates|
        invariant props == old(props) && expanded == Tokens(exdates[..i])
      {
        assert exdates[..i + 1][..i] == exdates[..i];
        expanded := AppendPieces(expanded, exdates[i]);
      }
      assert exdates[..|exdates|] == exdates;
      props := props[EXDATE := expanded];
    }
  }

  // ---------- What splitting keeps ----------

  lemma {:induction false} TrimLeftIsSuffix(s: string)
    ensures |TrimLeft(s)| <= |s| && TrimLeft(s) == s[|s| - |TrimLeft(s)|..]
    ensures TrimLeft(s) != [] ==> !IsSpace(TrimLeft(s)[0])
    ensures forall i :: 0 <= i < |s| - |TrimLeft(s)| ==> IsSpace(s[i])
  {
    if s != [] && IsSpace(s[0]) {
      var rest := s[1..];
      TrimLeftIsSuffix(rest);
      var kept := |TrimLeft(rest)|;
      assert rest[|rest| - kept..] == s[|s| - kept..];
      forall i | 0 <= i < |s| - kept ensures IsSpace(s[i]) {
        assert i > 0 ==> s[i] == rest[i - 1];
      }
    }
  }

  lemma {:induction false} TrimRightIsPrefix(s: string)
    ensures TrimRight(s) <= s
    ensures TrimRight(s) != [] ==> !IsSpace(TrimRight(s)[|TrimRight(s)| - 1])
    ensures forall i :: |TrimRight(s)| <= i < |s| ==> IsSpace(s[i])
  {
    if s != [] && IsSpace(s[|s| - 1]) {
      TrimRightIsPrefix(s[..|s| - 1]);
    }
  }

  lemma TrimSettles(s: string)
    ensures TrimSpace(TrimSpace(s)) == TrimSpace(s)
    ensures forall c :: c in TrimSpace(s) ==> c in s
  {
    TrimLeftIsSuffix(s);
    TrimRightIsPrefix(TrimLeft(s));
    var t := TrimSpace(s);
    if t != [] {
      assert t[0] == TrimLeft(s)[0];
    }
  }

  /** A token is a property of one trimmed non-empty value without a comma, named and parametrised like its source. */
  ghost predicate Single(t: Prop) {
    ',' !in t.value && t.value != "" && TrimSpace(t.value) == t.value
  }

  lemma {:induction false} PieceTokensAreSingle(p: Prop, pieces: seq<string>)
    requires forall s :: s in pieces ==> ',' !in s
    ensures forall t :: t in PieceTokens(p, pieces) ==> Single(t) && t.(value := p.value) == p
  {
    if pieces != [] {
      var last := pieces[|pieces| - 1];
      PieceTokensAreSingle(p, pieces[..|pieces| - 1]);
      TrimSettles(last);
    }
  }

  lemma {:induction false} TokensAreSingle(props: seq<Prop>)
    ensures forall t :: t in Tokens(props) ==> Single(t) && exists p :: p in props && t.(value := p.value) == p
  {
    if props != [] {
      var front, last := props[..|props| - 1], props[|props| - 1];
      TokensAreSingle(front);
      SplitIsBetweenCommas(last.value);
      PieceTokensAreSingle(last, Split(last.value));
      forall t | t in Tokens(props) ensures Single(t) && exists p :: p in props && t.(value := p.value) == p {
        if t in Tokens(front) {
          var p :| p in front && t.(value := p.value) == p;
          assert p in props;
        } else {
          assert last in props;
        }
      }
    }
  }

  lemma TokenOfSingle(t: Prop)
    requires Single(t)
    ensures ValueTokens(t) == [t]
  {
    SplitWithoutComma(t.value);
    assert [t.value][..0] == [] && PieceTokens(t, []) == [];
  }

  lemma TokensOfSingles(ts: seq<Prop>)
    requires forall t :: t in ts ==> Single(t)
    ensures Tokens(ts) == ts
  {
    forall i | 0 <= i < |ts| ensures ValueTokens(ts[i]) == [ts[i]] {
      TokenOfSingle(ts[i]);
    }
    FlatMapOfUnits(ts, ValueTokens);
  }

  /** Splitting excludes the same dates in the same order, leaves no comma, and is settled after one application. */
  lemma SplittingKeepsMeaning(props: seq<Prop>)
    ensures Tokens(SplitExdates(props)) == Tokens(props)
    ensures forall p :: p in SplitExdates(props) ==> ',' !in p.value
    ensures forall t :: t in SplitExdates(props) ==> exists p :: p in props && t.(value := p.value) == p
    ensures SplitExdates(SplitExdates(props)) == SplitExdates(props)
  {
    TokensAreSingle(props);
    TokensOfSingles(Tokens(props));
    if !NeedsSplit(props) {
      forall t | t in props ensures exists p :: p in props && t.(value := p.value) == p {
        assert t.(value := t.value) == t;
      }
    }
  }

  // ---------- The same in terms of the pieces ----------

  ghost predicate Blank(s: string) {
    forall i :: 0 <= i < |s| ==> IsSpace(s[i])
  }

  /** Neither the first nor the last character is space. */
  predicate Trim(s: string) {
    s != [] ==> !IsSpace(s[0]) && !IsSpace(s[|s| - 1])
  }

  lemma {:induction false} TrimLeftDrops(lead: string, s: string)
    requires Blank(lead) && (s != [] ==> !IsSpace(s[0]))
    ensures TrimLeft(lead + s) == s
  {
    if lead == [] {
      assert lead + s == s;
    } else {
      assert (lead + s)[1..] == lead[1..] + s;
      TrimLeftDrops(lead[1..], s);
    }
  }

  lemma {:induction false} TrimRightDrops(s: string, trail: string)
    requires Blank(trail) && (s != [] ==> !IsSpace(s[|s| - 1]))
    ensures TrimRight(s + trail) == s
    decreases |trail|
  {
    if trail == [] {
      assert s + trail == s;
    } else {
      var n := |trail| - 1;
      assert (s + trail)[..|s| + n] == s + trail[..n];
      TrimRightDrops(s, trail[..n]);
    }
  }

  /** Trimming takes away the space around a text and nothing else. */
  lemma TrimSpaceExactly(lead: string, s: string, trail: string)
    requires Blank(lead) && Trim(s) && Blank(trail)
    ensures TrimSpace(lead + s + trail) == s
  {
    if s == [] {
      TrimLeftDrops(lead + trail, []);
      assert lead + s + trail == lead + trail + [];
    } else {
      assert lead + s + trail == lead + (s + trail);
      TrimLeftDrops(lead, s + trail);
      TrimRightDrops(s, trail);
    }
  }

  ghost predicate CommaFree(pieces: seq<string>) {
    pieces != [] && forall i :: 0 <= i < |pieces| ==> ',' !in pieces[i]
  }

  lemma {:induction false} SplitAtComma(p: string, rest: string)
    requires ',' !in p
    ensures Split(p + "," + rest) == [p] + Split(rest)
  {
    if p == [] {
      assert (p + "," + rest)[1..] == rest;
    } else {
      assert (p + "," + rest)[1..] == p[1..] + "," + rest;
      SplitAtComma(p[1..], rest);
      assert [p[0]] + p[1..] == p;
    }
  }

  /** Splitting finds the pieces that commas joined. */
  lemma {:induction false} SplitInvertsJoined(pieces: seq<string>)
    requires CommaFree(pieces)
    ensures Split(Joined(pieces)) == pieces
  {
    if |pieces| == 1 {
      SplitWithoutComma(pieces[0]);
    } else {
      SplitInvertsJoined(pieces[1..]);
      SplitAtComma(pieces[0], Joined(pieces[1..]));
    }
  }

  /**
    * The dates of the pieces, first to last: what is left of each without the space around it, unless that is nothing.
    */
  function Dates(p: Prop, pieces: seq<string>): seq<Prop> {
    if pieces == [] then []
    else
      (if TrimSpace(pieces[0]) == "" then [] else [Prop(p.name, TrimSpace(pieces[0]), p.params)])
      + Dates(p, pieces[1..])
  }

  lemma {:induction false} DatesSnoc(p: Prop, pieces: seq<string>, last: string)
    ensures Dates(p, pieces + [last]) ==
            Dates(p, pieces) + if TrimSpace(last) == "" then [] else [Prop(p.name, TrimSpace(last), p.params)]
    decreases |pieces|
  {
    if pieces == [] {
      assert ([] + [last])[1..] == [];
    } else {
      assert (pieces + [last])[1..] == pieces[1..] + [last];
      DatesSnoc(p, pieces[1..], last);
    }
  }

  lemma {:induction false} PieceTokensAreDates(p: Prop, pieces: seq<string>)
    ensures PieceTokens(p, pieces) == Dates(p, pieces)
  {
    if pieces != [] {
      var front, last := pieces[..|pieces| - 1], pieces[|pieces| - 1];
      PieceTokensAreDates(p, front);
      DatesSnoc(p, front, last);
      assert front + [last] == pieces;
    }
  }

  /** The properties are written as these pieces with commas in between. */
  ghost predicate WrittenAs(props: seq<Prop>, pieces: seq<seq<string>>) {
    |pieces| == |props| && forall i :: 0 <= i < |props| ==> CommaFree(pieces[i]) && props[i].value == Joined(pieces[i])
  }

  function AllDates(props: seq<Prop>, pieces: seq<seq<string>>): seq<Prop>
    requires |pieces| == |props|
  {
    if props == [] then [] else Dates(props[0], pieces[0]) + AllDates(props[1..], pieces[1..])
  }

  lemma {:induction false} AllDatesSnoc(props: seq<Prop>, pieces: seq<seq<string>>, p: Prop, last: seq<string>)
    requires |pieces| == |props|
    ensures AllDates(props + [p], pieces + [last]) == AllDates(props, pieces) + Dates(p, last)
    decreases |props|
  {
    if props == [] {
      assert ([] + [p])[1..] == [] && ([] + [last])[1..] == [];
    } else {
      assert (props + [p])[1..] == props[1..] + [p] && (pieces + [last])[1..] == pieces[1..] + [last];
      AllDatesSnoc(props[1..], pieces[1..], p, last);
    }
  }

  lemma {:induction false} TokensAreAllDates(props: seq<Prop>, pieces: seq<seq<string>>)
    requires WrittenAs(props, pieces)
    ensures Tokens(props) == AllDates(props, pieces)
  {
    if props != [] {
      var n := |props| - 1;
      TokensAreAllDates(props[..n], pieces[..n]);
      SplitInvertsJoined(pieces[n]);
      PieceTokensAreDates(props[n], pieces[n]);
      AllDatesSnoc(props[..n], pieces[..n], props[n], pieces[n]);
      assert props[..n] + [props[n]] == props && pieces[..n] + [pieces[n]] == pieces;
    }
  }

  /**
    * A list of properties, written as pieces with commas in between, becomes the list of the dates of all pieces in
    * order, each under the name and parameters of its property; a list without commas stays as it is.
    */
  lemma SplitExdatesExactly(props: seq<Prop>, pieces: seq<seq<string>>)
    requires WrittenAs(props, pieces)
    ensures SplitExdates(props) == if exists i :: 0 <= i < |pieces| && |pieces[i]| > 1 then AllDates(props, pieces)
                                   else props
  {
    TokensAreAllDates(props, pieces);
    forall i | 0 <= i < |props| ensures ',' in props[i].value <==> |pieces[i]| > 1 {
      if |pieces[i]| > 1 {
        assert Joined(pieces[i])[|pieces[i][0]|] == ',';
      }
    }
  }
}
