/**
 The tokenizer shared by the debug NMEA parsers: the checksum's star becomes a comma and the
 sentence is cut at every comma.  What follows the last comma, the checksum, is not a field.
 */
module Nmea {

  const DEBUG_NMEA_MINSIZE := 6
  const DEBUG_NMEA_MAXSIZE := 4096

  predicate IsDebug(nmea: string, length: int) {
    DEBUG_NMEA_MINSIZE <= length <= DEBUG_NMEA_MAXSIZE && |nmea| >= 4 && nmea[..4] == "$PQW"
  }

  /** The first position of `c`, or the length where there is none. */
  function Find(s: string, c: char): (index: nat)
    ensures index <= |s| && c !in s[..index]
    ensures index < |s| ==> s[index] == c
    ensures index == |s| <==> c !in s
  {
    if s == "" || s[0] == c then 0 else
      var rest := Find(s[1..], c);
      assert s[..rest + 1] == [s[0]] + s[1..][..rest];
      rest + 1
  }

  /** The fields of a sentence, and what is left after its last comma. */
  datatype Tokens = Tokens(fields: seq<string>, leftover: string)

  function Tokenize(s: string): Tokens
    decreases |s|
  {
    var index := Find(s, ',');
    if index == |s| then Tokens([], s)
    else
      var rest := Tokenize(s[index + 1..]);
      Tokens([s[..index]] + rest.fields, rest.leftover)
  }

  function StarToComma(s: string): string
    requires '*' in s
  {
    var index := Find(s, '*');
    s[..index] + "," + s[index + 1..]
  }

  /** The constructor of the parsers' base class: the fields it finds. */
  method SystemStatusNmeaBase(strIn: string, lenIn: int) returns (mField: seq<string>)
    ensures mField == if IsDebug(strIn, lenIn) && '*' in strIn then Tokenize(StarToComma(strIn)).fields else []
  {
    mField := [];
    if !IsDebug(strIn, lenIn) {
      return;
    }
    var parser := strIn;
    var index := Find(parser, '*');
    if index == |parser| {
      return;
    }
    parser := parser[..index] + "," + parser[index + 1..];
    ghost var all := Tokenize(parser).fields;
    while true
      invariant mField + Tokenize(parser).fields == all
      decreases |parser|
    {
      index := Find(parser, ',');
      if index == |parser| {
        break;
      }
      var str := parser[..index];
      parser := parser[index + 1..];
      mField := mField + [str];
    }
  }

  // ----- what tokens are ----------------------------------------------------------

  /** Every field followed by a comma, and then the leftover. */
  function Rejoin(t: Tokens): string
    decreases |t.fields|
  {
    if t.fields == [] then t.leftover else t.fields[0] + "," + Rejoin(Tokens(t.fields[1..], t.leftover))
  }

  predicate CommaFree(t: Tokens) {
    ',' !in t.leftover && forall f :: f in t.fields ==> ',' !in f
  }

  lemma OneMoreField(first: string, rest: Tokens)
    requires ',' !in first && CommaFree(rest)
    ensures var t := Tokens([first] + rest.fields, rest.leftover);
            Rejoin(t) == first + "," + Rejoin(rest) && CommaFree(t)
  {
    assert ([first] + rest.fields)[1..] == rest.fields;
  }

  /** The tokens rebuild the sentence, and none of them can be cut further. */
  lemma {:induction false} TokensRejoin(s: string)
    ensures Rejoin(Tokenize(s)) == s && CommaFree(Tokenize(s))
    decreases |s|
  {
    hide Find;
    var index := Find(s, ',');
    if index < |s| {
      var first, rest := s[..index], Tokenize(s[index + 1..]);
      TokensRejoin(s[index + 1..]);
      OneMoreField(first, rest);
      assert s == first + "," + s[index + 1..];
    }
  }

  lemma {:induction false} FindAfter(f: string, c: char, rest: string)
    requires c !in f
    ensures Find(f + [c] + rest, c) == |f|
  {
    var s := f + [c] + rest;
    if f != "" {
      assert s[0] == f[0] && s[1..] == f[1..] + [c] + rest;
      FindAfter(f[1..], c, rest);
    }
  }

  /** And they are the only tokens that do: tokenizing undoes joining. */
  lemma {:induction false} TokensAreUnique(t: Tokens)
    requires CommaFree(t)
    ensures Tokenize(Rejoin(t)) == t
    decreases |t.fields|
  {
    if t.fields != [] {
      var first, rest := t.fields[0], Tokens(t.fields[1..], t.leftover);
      var s := first + "," + Rejoin(rest);
      TokensAreUnique(rest);
      FindAfter(first, ',', Rejoin(rest));
      assert s[..|first|] == first && s[|first| + 1..] == Rejoin(rest);
      assert [first] + rest.fields == t.fields;
    }
  }

  // ----- sentences ----------------------------------------------------------------

  /** The fields, separated by commas. */
  function Joined(fields: seq<string>): string
    requires fields != []
  {
    if |fields| == 1 then fields[0] else fields[0] + "," + Joined(fields[1..])
  }

  function Printed(fields: seq<string>, checksum: string): string
    requires fields != []
  {
    Joined(fields) + "*" + checksum
  }

  lemma {:induction false} JoinedRejoins(fields: seq<string>, checksum: string)
    requires fields != []
    ensures Joined(fields) + "," + checksum == Rejoin(Tokens(fields, checksum))
  {
    var first, rest := fields[0], fields[1..];
    if |fields| == 1 {
      assert Rejoin(Tokens(rest, checksum)) == checksum;
    } else {
      JoinedRejoins(rest, checksum);
      assert Joined(fields) + "," + checksum == first + "," + (Joined(rest) + "," + checksum);
    }
  }

  lemma {:induction false} JoinedHasNo(fields: seq<string>, c: char)
    requires fields != [] && c != ',' && forall f :: f in fields ==> c !in f
    ensures c !in Joined(fields)
  {
    assert fields[0] in fields;
    if |fields| > 1 {
      assert forall f :: f in fields[1..] ==> f in fields;
      JoinedHasNo(fields[1..], c);
    }
  }

  /** The parser's fields of a printed sentence are the fields that were printed. */
  lemma TokenizerUndoesPrinting(fields: seq<string>, checksum: string)
    requires fields != [] && ',' !in checksum
    requires forall f :: f in fields ==> ',' !in f && '*' !in f
    ensures '*' in Printed(fields, checksum)
    ensures Tokenize(StarToComma(Printed(fields, checksum))) == Tokens(fields, checksum)
  {
    var joined, s := Joined(fields), Printed(fields, checksum);
    JoinedHasNo(fields, '*');
    FindAfter(joined, '*', checksum);
    assert s[|joined|] == '*';
    assert s[..|joined|] == joined && s[|joined| + 1..] == checksum;
    JoinedRejoins(fields, checksum);
    TokensAreUnique(Tokens(fields, checksum));
  }

  /** Of any sentence with a star, the fields and the leftover rebuild it with that star a comma. */
  lemma TokensRebuildSentence(s: string)
    requires '*' in s
    ensures var t := Tokenize(StarToComma(s)); Rejoin(t) == StarToComma(s) && CommaFree(t) && t.fields != []
  {
    TokensRejoin(StarToComma(s));
    assert StarToComma(s)[Find(s, '*')] == ',';
  }
}
