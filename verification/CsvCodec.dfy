/**
 The comma-separated row codec: an encoder, a parser of one record, and a framer that cuts a
 stream into records with its own quote tracking.  A grammar of records is the common
 reference; bytes are characters here.
 */
module CsvCodec {
  import opened Sequences

  type Field = seq<char>

  datatype Result = Rejected | Fields(fields: seq<Field>)

  // ----- The grammar of records (section 2 of RFC 4180, and what the parser adds to it) -----

  datatype Item = Bare(text: Field) | Quoted(text: Field)

  predicate LineBreak(c: char) { c == '\r' || c == '\n' }

  predicate Special(c: char) { c == ',' || c == '"' || LineBreak(c) }

  predicate Ordinary(s: seq<char>) { forall i :: 0 <= i < |s| ==> !Special(s[i]) }

  /** The end of a record: any run of line breaks, or none. */
  predicate Tail(s: seq<char>) { forall i :: 0 <= i < |s| ==> LineBreak(s[i]) }

  function Doubled(s: seq<char>): seq<char>
  {
    if s == [] then [] else (if s[0] == '"' then ['"', '"'] else [s[0]]) + Doubled(s[1..])
  }

  predicate WellFormed(items: seq<Item>)
  {
    items != [] && forall i :: 0 <= i < |items| ==> items[i].Bare? ==> Ordinary(items[i].text)
  }

  function Write(item: Item): seq<char>
  {
    match item
    case Bare(t) => t
    case Quoted(t) => ['"'] + Doubled(t) + ['"']
  }

  function Body(items: seq<Item>): seq<char>
  {
    if items == [] then []
    else if |items| == 1 then Write(items[0])
    else Write(items[0]) + ([','] + Body(items[1..]))
  }

  lemma BodySplit(items: seq<Item>, k: seq<char>)
    requires |items| > 1
    ensures Body(items) + k == Write(items[0]) + ([','] + (Body(items[1..]) + k))
  {
    var first, more := Write(items[0]), Body(items[1..]);
    Regroup(first, [','] + more, k);
    Regroup([','], more, k);
  }

  lemma CommaFirst(s: seq<char>)
    ensures ([','] + s)[0] == ',' && ([','] + s)[1..] == s
  {
  }

  function Values(items: seq<Item>): (r: seq<Field>)
    ensures |r| == |items|
  {
    seq(|items|, i requires 0 <= i < |items| => items[i].text)
  }

  /** How the encoder writes a field. */
  function ItemOf(field: Field): Item
  {
    if field != [] && Ordinary(field) then Bare(field) else Quoted(field)
  }

  function ItemsOf(fields: seq<Field>): (r: seq<Item>)
    ensures |r| == |fields| && Values(r) == fields
    ensures fields != [] ==> WellFormed(r)
  {
    seq(|fields|, i requires 0 <= i < |fields| => ItemOf(fields[i]))
  }

  function Encoding(fields: seq<Field>): seq<char>
  {
    Body(ItemsOf(fields)) + ['\n']
  }

  lemma {:induction false} DoubledIsNoShorter(s: seq<char>)
    ensures |s| <= |Doubled(s)|
  {
    if s != [] {
      DoubledIsNoShorter(s[1..]);
    }
  }

  /** A field is written as it is exactly if it is not empty and has no special character in it. */
  lemma WrittenUnchangedIff(field: Field)
    ensures Write(ItemOf(field)) == field
            <==> field != [] && ',' !in field && '"' !in field && '\r' !in field && '\n' !in field
  {
    DoubledIsNoShorter(field);
    assert |Write(Quoted(field))| > |field|;
    if Ordinary(field) {
      assert forall i :: 0 <= i < |field| ==> !Special(field[i]);
    }
  }

  // ----- The encoder -----

  lemma {:induction false} DoubledAppend(s: seq<char>, c: char)
    ensures Doubled(s + [c]) == Doubled(s) + (if c == '"' then ['"', '"'] else [c])
  {
    if s == [] {
      assert s + [c] == [c] && [c][1..] == [];
    } else {
      DoubledAppend(s[1..], c);
      assert (s + [c])[1..] == s[1..] + [c];
    }
  }

  method EscapeField(field: Field) returns (result: seq<char>)
    ensures result == Write(ItemOf(field))
  {
    var quote := field == [] || !Ordinary(field);
    if !quote {
      return field;
    }
    result := ['"'];
    var i := 0;
    while i < |field|
      invariant 0 <= i <= |field|
      invariant result == ['"'] + Doubled(field[..i])
    {
      assert field[..i + 1] == field[..i] + [field[i]];
      DoubledAppend(field[..i], field[i]);
      if field[i] == '"' {
        result := result + ['"'];
      }
      result := result + [field[i]];
      i := i + 1;
    }
    assert field[..i] == field;
    result := result + ['"'];
  }

  lemma {:induction false} BodyAppend(items: seq<Item>, item: Item)
    ensures Body(items + [item]) == if items == [] then Write(item) else Body(items) + ([','] + Write(item))
  {
    if items == [] {
      assert items + [item] == [item];
    } else {
      var longer := items + [item];
      assert longer[0] == items[0] && longer[1..] == items[1..] + [item];
      BodyAppend(items[1..], item);
      if |items| > 1 {
        BodySplit(items, [','] + Write(item));
      }
    }
  }

  method EncodeRow(fields: seq<Field>) returns (result: seq<char>)
    ensures result == Encoding(fields)
  {
    result := [];
    var i := 0;
    while i < |fields|
      invariant 0 <= i <= |fields|
      invariant result == Body(ItemsOf(fields[..i]))
    {
      assert ItemsOf(fields[..i + 1]) == ItemsOf(fields[..i]) + [ItemOf(fields[i])];
      BodyAppend(ItemsOf(fields[..i]), ItemOf(fields[i]));
      ghost var before := result;
      if i != 0 {
        result := result + [','];
      }
      var escaped := EscapeField(fields[i]);
      Regroup(before, [','], escaped);
      result := result + escaped;
      i := i + 1;
    }
    assert fields[..i] == fields;
    result := result + ['\n'];
  }

  // ----- The parser -----

  datatype Mode = Plain | InQuotes | AfterQuotes

  /** What the parser makes of the rest of a row. */
  function Parse(rest: seq<char>, mode: Mode, field: Field, fields: seq<Field>): Result
    decreases |rest|
  {
    if rest == [] then
      if mode == InQuotes then Rejected else Fields(fields + [field])
    else
      var c := rest[0];
      if mode == InQuotes then
        if c != '"' then Parse(rest[1..], InQuotes, field + [c], fields)
        else if |rest| > 1 && rest[1] == '"' then Parse(rest[2..], InQuotes, field + ['"'], fields)
        else Parse(rest[1..], AfterQuotes, field, fields)
      else if LineBreak(c) then
        if Tail(rest) then Fields(fields + [field]) else Rejected
      else if c == ',' then Parse(rest[1..], Plain, [], fields + [field])
      else if mode == AfterQuotes then Rejected
      else if c == '"' then
        if field != [] then Rejected else Parse(rest[1..], InQuotes, [], fields)
      else Parse(rest[1..], Plain, field + [c], fields)
  }

  method SkipBreaks(row: seq<char>, i: nat) returns (j: nat)
    requires i < |row| && LineBreak(row[i])
    ensures i <= j < |row| && Tail(row[i..j + 1])
    ensures j + 1 == |row| <==> Tail(row[i..])
  {
    j := i;
    while j + 1 < |row| && LineBreak(row[j + 1])
      invariant i <= j < |row| && Tail(row[i..j + 1])
    {
      assert row[i..j + 2] == row[i..j + 1] + [row[j + 1]];
      j := j + 1;
    }
    if j + 1 < |row| {
      assert row[i..][j + 1 - i] == row[j + 1];
    } else {
      assert row[i..j + 1] == row[i..];
    }
  }

  method TryParseRow(row: seq<char>) returns (r: Result)
    ensures r == Parse(row, Plain, [], [])
  {
    var fields: seq<Field>, field: Field := [], [];
    var quoted, afterQuote := false, false;
    ghost var mode := Plain;
    assert row[0..] == row;
    var i := 0;
    while i < |row|
      invariant 0 <= i <= |row|
      invariant mode == if quoted then InQuotes else if afterQuote then AfterQuotes else Plain
      invariant Parse(row, Plain, [], []) == Parse(row[i..], mode, field, fields)
    {
      var c := row[i];
      assert row[i..][1..] == row[i + 1..];
      if quoted {
        if c == '"' {
          if i + 1 < |row| && row[i + 1] == '"' {
            assert row[i..][2..] == row[i + 2..];
            field := field + ['"'];
            i := i + 1;
          } else {
            quoted, afterQuote := false, true;
          }
        } else {
          field := field + [c];
        }
      } else if LineBreak(c) {
        i := SkipBreaks(row, i);
        if i + 1 != |row| {
          return Rejected;
        }
        assert row[i + 1..] == [];
      } else if afterQuote {
        if c == ',' {
          fields, field := fields + [field], [];
          afterQuote := false;
        } else {
          return Rejected;
        }
      } else if c == '"' {
        if field != [] {
          return Rejected;
        }
        quoted := true;
      } else if c == ',' {
        fields, field := fields + [field], [];
      } else {
        field := field + [c];
      }
      mode := if quoted then InQuotes else if afterQuote then AfterQuotes else Plain;
      i := i + 1;
    }
    if quoted {
      return Rejected;
    }
    return Fields(fields + [field]);
  }

  // ----- The parser accepts exactly the grammar -----

  lemma {:induction false} ParseBare(t: seq<char>, k: seq<char>, field: Field, fields: seq<Field>)
    requires Ordinary(t)
    ensures Parse(t + k, Plain, field, fields) == Parse(k, Plain, field + t, fields)
    decreases |t|
  {
    if t == [] {
      assert t + k == k && field + t == field;
    } else {
      assert (t + k)[0] == t[0] && (t + k)[1..] == t[1..] + k;
      ParseBare(t[1..], k, field + [t[0]], fields);
      assert (field + [t[0]]) + t[1..] == field + t;
    }
  }

  lemma {:induction false} ParseQuoted(t: seq<char>, k: seq<char>, field: Field, fields: seq<Field>)
    requires k == [] || k[0] != '"'
    ensures Parse(Doubled(t) + ['"'] + k, InQuotes, field, fields) == Parse(k, AfterQuotes, field + t, fields)
    decreases |t|
  {
    var s := Doubled(t) + ['"'] + k;
    if t == [] {
      assert s[0] == '"' && s[1..] == k && field + t == field;
    } else {
      var more := Doubled(t[1..]) + ['"'] + k;
      ParseQuoted(t[1..], k, field + [t[0]], fields);
      assert (field + [t[0]]) + t[1..] == field + t;
      if t[0] == '"' {
        assert s[0] == '"' && s[1] == '"' && s[2..] == more;
      } else {
        assert s[0] == t[0] && s[1..] == more;
      }
    }
  }

  lemma ParseItem(item: Item, k: seq<char>, fields: seq<Field>)
    requires item.Bare? ==> Ordinary(item.text)
    requires k == [] || k[0] != '"'
    ensures Parse(Write(item) + k, Plain, [], fields)
            == Parse(k, if item.Bare? then Plain else AfterQuotes, item.text, fields)
  {
    match item
    case Bare(t) =>
      ParseBare(t, k, [], fields);
      assert [] + t == t;
    case Quoted(t) =>
      var s := Write(item) + k;
      assert s[0] == '"' && s[1..] == Doubled(t) + ['"'] + k;
      ParseQuoted(t, k, [], fields);
      assert [] + t == t;
  }

  lemma ValuesSplit(items: seq<Item>, fields: seq<Field>)
    requires items != []
    ensures fields + Values(items) == (fields + [items[0].text]) + Values(items[1..])
  {
    assert Values(items) == [items[0].text] + Values(items[1..]);
  }

  /** Every record of the grammar is accepted with the values it stands for. */
  lemma {:induction false} Completeness(items: seq<Item>, tail: seq<char>, fields: seq<Field>)
    requires WellFormed(items) && Tail(tail)
    ensures Parse(Body(items) + tail, Plain, [], fields) == Fields(fields + Values(items))
    decreases |items|
  {
    var item := items[0];
    if |items| == 1 {
      ParseItem(item, tail, fields);
      assert Values(items) == [item.text];
    } else {
      var more := Body(items[1..]) + tail;
      BodySplit(items, tail);
      CommaFirst(more);
      ParseItem(item, [','] + more, fields);
      Completeness(items[1..], tail, fields + [item.text]);
      ValuesSplit(items, fields);
    }
  }

  /** The part of the current item that has been read. */
  function ReadSoFar(mode: Mode, field: Field): seq<char>
  {
    match mode
    case Plain => field
    case InQuotes => ['"'] + Doubled(field)
    case AfterQuotes => ['"'] + Doubled(field) + ['"']
  }

  /** The reader's position moves over characters that it has taken into the current item. */
  lemma TakeOne(rest: seq<char>, field: Field)
    requires rest != []
    ensures rest[0] != '"' ==> ReadSoFar(InQuotes, field + [rest[0]]) + rest[1..] == ReadSoFar(InQuotes, field) + rest
    ensures rest[0] == '"' ==> ReadSoFar(AfterQuotes, field) + rest[1..] == ReadSoFar(InQuotes, field) + rest
    ensures rest[0] == '"' && |rest| > 1 && rest[1] == '"' ==>
              ReadSoFar(InQuotes, field + ['"']) + rest[2..] == ReadSoFar(InQuotes, field) + rest
    ensures ReadSoFar(Plain, field + [rest[0]]) + rest[1..] == ReadSoFar(Plain, field) + rest
    ensures rest[0] == '"' ==> ReadSoFar(InQuotes, []) + rest[1..] == ReadSoFar(Plain, []) + rest
  {
    assert rest == [rest[0]] + rest[1..];
    DoubledAppend(field, rest[0]);
    if rest[0] == '"' && |rest| > 1 && rest[1] == '"' {
      assert rest == ['"', '"'] + rest[2..];
    }
  }

  lemma AddItemText(current: Item, rest: seq<char>, more: seq<Item>, tail: seq<char>)
    requires more != [] && rest == [','] + (Body(more) + tail)
    ensures Write(current) + rest == Body([current] + more) + tail
  {
    var items := [current] + more;
    assert items[0] == current && items[1..] == more;
    BodySplit(items, tail);
  }

  lemma AddItem(current: Item, rest: seq<char>, more: seq<Item>, tail: seq<char>, fields: seq<Field>)
    requires WellFormed(more) && (current.Bare? ==> Ordinary(current.text))
    requires rest != [] && rest[0] == ',' && rest[1..] == Body(more) + tail
    ensures WellFormed([current] + more)
    ensures Write(current) + rest == Body([current] + more) + tail
    ensures fields + Values([current] + more) == (fields + [current.text]) + Values(more)
  {
    hide Body;
    hide Write;
    assert rest == [','] + rest[1..];
    AddItemText(current, rest, more, tail);
    assert ([current] + more)[1..] == more;
    ValuesSplit([current] + more, fields);
  }

  /** Whatever is accepted is a record of the grammar, and the fields are its values. */
  lemma {:induction false} Soundness(rest: seq<char>, mode: Mode, field: Field, fields: seq<Field>)
    returns (items: seq<Item>, tail: seq<char>)
    requires Parse(rest, mode, field, fields).Fields?
    requires mode == Plain ==> Ordinary(field)
    ensures WellFormed(items) && Tail(tail)
    ensures ReadSoFar(mode, field) + rest == Body(items) + tail
    ensures Parse(rest, mode, field, fields).fields == fields + Values(items)
    decreases |rest|
  {
    if rest == [] || (mode != InQuotes && LineBreak(rest[0])) {
      items, tail := [if mode == Plain then Bare(field) else Quoted(field)], rest;
      assert Values(items) == [field];
    } else if mode == InQuotes {
      TakeOne(rest, field);
      if rest[0] != '"' {
        items, tail := Soundness(rest[1..], InQuotes, field + [rest[0]], fields);
      } else if |rest| > 1 && rest[1] == '"' {
        items, tail := Soundness(rest[2..], InQuotes, field + ['"'], fields);
      } else {
        items, tail := Soundness(rest[1..], AfterQuotes, field, fields);
      }
    } else if rest[0] == ',' {
      var current := if mode == Plain then Bare(field) else Quoted(field);
      var more;
      more, tail := Soundness(rest[1..], Plain, [], fields + [field]);
      assert [] + rest[1..] == rest[1..];
      AddItem(current, rest, more, tail, fields);
      items := [current] + more;
    } else if rest[0] == '"' {
      TakeOne(rest, []);
      items, tail := Soundness(rest[1..], InQuotes, [], fields);
    } else {
      TakeOne(rest, field);
      items, tail := Soundness(rest[1..], Plain, field + [rest[0]], fields);
    }
  }

  ghost predicate Record(row: seq<char>, items: seq<Item>, tail: seq<char>)
  {
    WellFormed(items) && Tail(tail) && row == Body(items) + tail
  }

  /** The parser accepts a row with some fields exactly when the grammar derives the row with those values. */
  lemma ParserIsTheGrammar(row: seq<char>, fields: seq<Field>)
    ensures Parse(row, Plain, [], []) == Fields(fields) <==>
            exists items, tail :: Record(row, items, tail) && Values(items) == fields
  {
    if Parse(row, Plain, [], []) == Fields(fields) {
      var items, tail := Soundness(row, Plain, [], []);
      assert [] + row == row && [] + Values(items) == Values(items);
      assert Record(row, items, tail);
    }
    forall items, tail | Record(row, items, tail) ensures Parse(row, Plain, [], []) == Fields(Values(items)) {
      Completeness(items, tail, []);
      assert [] + Values(items) == Values(items);
    }
  }

  // ----- The framer -----

  /** Where the framer ends a record: after a line feed, or at the end of input inside quotes or not. */
  datatype Cut = Line(n: nat) | Eof(quoted: bool)

  function Later(k: nat, cut: Cut): Cut
  {
    if cut.Line? then Line(k + cut.n) else cut
  }

  function Frame(s: seq<char>, quoted: bool): (cut: Cut)
    ensures cut.Line? ==> 0 < cut.n <= |s|
    decreases |s|
  {
    if s == [] then Eof(quoted)
    else if s[0] == '"' && quoted && |s| > 1 && s[1] == '"' then Later(2, Frame(s[2..], quoted))
    else if s[0] == '"' then Later(1, Frame(s[1..], !quoted))
    else if s[0] == '\n' && !quoted then Line(1)
    else Later(1, Frame(s[1..], quoted))
  }

  /** What reading one record from the rest of a stream gives, and what it leaves. */
  function ReadSpec(rest: seq<char>): (Result, seq<char>)
  {
    match Frame(rest, false)
    case Line(n) => (Parse(rest[..n], Plain, [], []), rest[n..])
    case Eof(quoted) => (if rest == [] || quoted then Rejected else Parse(rest, Plain, [], []), [])
  }

  /** The framer has taken record from the front of a stream and its flag is quoted. */
  ghost predicate Framing(from: seq<char>, record: seq<char>, quoted: bool, rest: seq<char>)
  {
    && |record| <= |from| && record == from[..|record|] && rest == from[|record|..]
    && Frame(from, false) == Later(|record|, Frame(rest, quoted))
  }

  lemma FrameStep(from: seq<char>, n: nat, quoted: bool)
    requires n < |from|
    ensures from[..n] + [from[n]] == from[..n + 1] && from[n..][1..] == from[n + 1..]
    ensures n + 1 < |from| ==> from[..n + 1] + [from[n + 1]] == from[..n + 2] && from[n + 1..][1..] == from[n + 2..]
    ensures Frame(from[n..], quoted) ==
            if from[n] == '"' && quoted && n + 1 < |from| && from[n + 1] == '"' then
              Later(2, Frame(from[n + 2..], quoted))
            else if from[n] == '"' then Later(1, Frame(from[n + 1..], !quoted))
            else if from[n] == '\n' && !quoted then Line(1)
            else Later(1, Frame(from[n + 1..], quoted))
  {
    var s := from[n..];
    assert s[1..] == from[n + 1..];
    if n + 1 < |from| {
      assert s[2..] == from[n + 2..];
    }
  }

  /** One more character, or an escaped quote, taken from the stream. */
  lemma FramingStep(from: seq<char>, record: seq<char>, quoted: bool, rest: seq<char>)
    requires Framing(from, record, quoted, rest) && rest != []
    ensures
      var c := rest[0];
      if c == '"' && quoted && |rest| > 1 && rest[1] == '"' then
        Framing(from, record + [c] + [c], quoted, rest[1..][1..])
      else if c == '\n' && !quoted then
        Frame(from, false) == Line(|record| + 1) && from[..|record| + 1] == record + [c] && from[|record| + 1..] == rest[1..]
      else
        Framing(from, record + [c], if c == '"' then !quoted else quoted, rest[1..])
  {
    FrameStep(from, |record|, quoted);
  }

  /** A stream with a read position. */
  class Input {
    const data: seq<char>
    var pos: nat

    ghost predicate Valid() reads this { pos <= |data| }

    function Rest(): seq<char>
      reads this
      requires Valid()
    {
      data[pos..]
    }

    constructor (data: seq<char>)
      ensures Valid() && this.data == data && Rest() == data
    {
      this.data, pos := data, 0;
    }

    method Get() returns (c: char)
      requires Valid() && Rest() != []
      modifies this
      ensures Valid() && c == old(Rest())[0] && Rest() == old(Rest())[1..] && pos == old(pos) + 1
    {
      c := data[pos];
      pos := pos + 1;
    }

    method Peek() returns (eof: bool, c: char)
      requires Valid()
      ensures eof <==> Rest() == []
      ensures !eof ==> c == Rest()[0]
    {
      eof := pos == |data|;
      c := if eof then ' ' else data[pos];
    }

    method ReadRow() returns (r: Result)
      requires Valid()
      modifies this
      ensures Valid() && (r, Rest()) == ReadSpec(old(Rest()))
    {
      var record: seq<char>, quoted := [], false;
      ghost var from := Rest();
      while pos < |data|
        invariant Valid() && Framing(from, record, quoted, Rest())
      {
        FramingStep(from, record, quoted, Rest());
        var c := Get();
        record := record + [c];
        if c == '"' {
          var eof, next := Peek();
          if quoted && !eof && next == '"' {
            c := Get();
            record := record + [c];
          } else {
            quoted := !quoted;
          }
        } else if c == '\n' && !quoted {
          r := TryParseRow(record);
          return;
        }
      }
      assert record == from;
      if record == [] || quoted {
        return Rejected;
      }
      r := TryParseRow(record);
    }
  }

  // ----- Framer and parser agree -----

  lemma {:induction false} FrameBare(t: seq<char>, k: seq<char>)
    requires Ordinary(t)
    ensures Frame(t + k, false) == Later(|t|, Frame(k, false))
    decreases |t|
  {
    if t == [] {
      assert t + k == k;
    } else {
      assert (t + k)[0] == t[0] && (t + k)[1..] == t[1..] + k;
      FrameBare(t[1..], k);
    }
  }

  lemma {:induction false} FrameQuoted(t: seq<char>, k: seq<char>)
    requires k == [] || k[0] != '"'
    ensures Frame(Doubled(t) + ['"'] + k, true) == Later(|Doubled(t)| + 1, Frame(k, false))
    decreases |t|
  {
    var s := Doubled(t) + ['"'] + k;
    if t == [] {
      assert s[0] == '"' && s[1..] == k;
    } else {
      var more := Doubled(t[1..]) + ['"'] + k;
      FrameQuoted(t[1..], k);
      if t[0] == '"' {
        assert s[0] == '"' && s[1] == '"' && s[2..] == more;
      } else {
        assert s[0] == t[0] && s[1..] == more;
      }
    }
  }

  lemma FrameItem(item: Item, k: seq<char>)
    requires item.Bare? ==> Ordinary(item.text)
    requires k == [] || k[0] != '"'
    ensures Frame(Write(item) + k, false) == Later(|Write(item)|, Frame(k, false))
  {
    match item
    case Bare(t) => FrameBare(t, k);
    case Quoted(t) =>
      var s := Write(item) + k;
      assert s[0] == '"' && s[1..] == Doubled(t) + ['"'] + k;
      FrameQuoted(t, k);
  }

  /** The framer's quote flag is down again at the end of every well-formed list of items. */
  lemma {:induction false} FrameBody(items: seq<Item>, k: seq<char>)
    requires WellFormed(items)
    requires k == [] || LineBreak(k[0])
    ensures Frame(Body(items) + k, false) == Later(|Body(items)|, Frame(k, false))
    decreases |items|
  {
    var item := items[0];
    if |items| == 1 {
      FrameItem(item, k);
    } else {
      var more := Body(items[1..]) + k;
      BodySplit(items, k);
      CommaFirst(more);
      FrameItem(item, [','] + more);
      FrameBody(items[1..], k);
    }
  }

  /** Where a line feed first stands, or the length. */
  function FirstLf(s: seq<char>): (n: nat)
    ensures n <= |s| && (n < |s| ==> s[n] == '\n')
    ensures forall i :: 0 <= i < n ==> s[i] != '\n'
  {
    if s == [] || s[0] == '\n' then 0 else 1 + FirstLf(s[1..])
  }

  lemma {:induction false} FrameTail(tail: seq<char>, k: seq<char>)
    requires Tail(tail)
    ensures FirstLf(tail) < |tail| ==> Frame(tail + k, false) == Line(FirstLf(tail) + 1)
    ensures FirstLf(tail) == |tail| ==> Frame(tail + k, false) == Later(|tail|, Frame(k, false))
    decreases |tail|
  {
    if tail == [] {
      assert tail + k == k;
    } else {
      assert (tail + k)[0] == tail[0] && (tail + k)[1..] == tail[1..] + k;
      FrameTail(tail[1..], k);
    }
  }

  lemma FrameRecord(items: seq<Item>, tail: seq<char>, rest: seq<char>)
    requires WellFormed(items) && Tail(tail) && FirstLf(tail) < |tail|
    ensures Frame(Body(items) + tail + rest, false) == Line(|Body(items)| + FirstLf(tail) + 1)
  {
    var k := tail + rest;
    Regroup(Body(items), tail, rest);
    assert k[0] == tail[0];
    FrameBody(items, k);
    FrameTail(tail, rest);
  }

  /**
   For every record that the parser accepts, whatever follows it: with a line feed among its
   closing line breaks the framer cuts right after the first of them, so it consumes exactly
   the record if and only if that line feed is its last character.
   */
  lemma FramerAgrees(row: seq<char>, rest: seq<char>, items: seq<Item>, tail: seq<char>)
    requires Record(row, items, tail) && FirstLf(tail) < |tail|
    ensures Frame(row + rest, false) == Line(|Body(items)| + FirstLf(tail) + 1)
    ensures Frame(row + rest, false) == Line(|row|) <==> FirstLf(tail) + 1 == |tail|
  {
    FrameRecord(items, tail, rest);
    assert |row| == |Body(items)| + |tail|;
  }

  /** Such a record is read back whole from a stream, and the stream is left right behind it. */
  lemma ReadsTheRecord(row: seq<char>, rest: seq<char>, items: seq<Item>, tail: seq<char>)
    requires Record(row, items, tail) && FirstLf(tail) + 1 == |tail|
    ensures ReadSpec(row + rest) == (Fields(Values(items)), rest)
  {
    FramerAgrees(row, rest, items, tail);
    assert (row + rest)[..|row|] == row && (row + rest)[|row|..] == rest;
    Completeness(items, tail, []);
    assert [] + Values(items) == Values(items);
  }

  /** The last record of a stream may lack its line feed. */
  lemma ReadsTheLastRecord(row: seq<char>, items: seq<Item>, tail: seq<char>)
    requires Record(row, items, tail) && FirstLf(tail) == |tail| && row != []
    ensures ReadSpec(row) == (Fields(Values(items)), [])
  {
    FrameBody(items, tail);
    FrameTail(tail, []);
    assert tail + [] == tail;
    Completeness(items, tail, []);
    assert [] + Values(items) == Values(items);
  }

  // ----- The two quote states, character by character -----

  /** Whether the parser is inside quotes after each character of a row; an escaped quote is taken in one go. */
  function ParserFlags(rest: seq<char>, mode: Mode, field: Field): seq<bool>
    decreases |rest|
  {
    if rest == [] then []
    else
      var c := rest[0];
      if mode == InQuotes then
        if c != '"' then [true] + ParserFlags(rest[1..], InQuotes, field + [c])
        else if |rest| > 1 && rest[1] == '"' then [true, true] + ParserFlags(rest[2..], InQuotes, field + ['"'])
        else [false] + ParserFlags(rest[1..], AfterQuotes, field)
      else if LineBreak(c) then seq(|rest|, i => false)
      else if c == ',' then [false] + ParserFlags(rest[1..], Plain, [])
      else if mode == AfterQuotes then []
      else if c == '"' then
        if field != [] then [] else [true] + ParserFlags(rest[1..], InQuotes, [])
      else [false] + ParserFlags(rest[1..], Plain, field + [c])
  }

  /** The flag after a character is the mode in which the parser goes on there, or behind the escaped quote it began. */
  lemma {:induction false} FlagIsTheMode(rest: seq<char>, mode: Mode, field: Field, fields: seq<Field>, k: nat)
    returns (j: nat, m: Mode, f: Field, fs: seq<Field>)
    requires Parse(rest, mode, field, fields).Fields? && k < |rest|
    ensures |ParserFlags(rest, mode, field)| == |rest|
    ensures j == k + 1 || (j == k + 2 && j <= |rest| && rest[k] == rest[k + 1] == '"')
    ensures Parse(rest[j..], m, f, fs) == Parse(rest, mode, field, fields)
    ensures ParserFlags(rest, mode, field)[k] == (m == InQuotes)
    decreases |rest|
  {
    var c := rest[0];
    var n, m1, f1, fs1 := NextMode(rest, mode, field, fields);
    if mode != InQuotes && LineBreak(c) {
      j, m, f, fs := k + 1, mode, field, fields;
    } else if k < n {
      if n < |rest| {
        var _, _, _, _ := FlagIsTheMode(rest[n..], m1, f1, fs1, 0);
      }
      j, m, f, fs := n, m1, f1, fs1;
    } else {
      j, m, f, fs := FlagIsTheMode(rest[n..], m1, f1, fs1, k - n);
      assert rest[n..][j..] == rest[n + j..];
      j := n + j;
    }
  }

  /** One turn of the parser, away from the closing line breaks: how many characters it takes and where it stands then. */
  lemma NextMode(rest: seq<char>, mode: Mode, field: Field, fields: seq<Field>)
    returns (n: nat, m: Mode, f: Field, fs: seq<Field>)
    requires Parse(rest, mode, field, fields).Fields? && rest != []
    ensures 1 <= n <= 2 && n <= |rest|
    ensures n == 2 ==> rest[0] == rest[1] == '"' && m == InQuotes
    ensures !(mode != InQuotes && LineBreak(rest[0])) ==>
              && Parse(rest[n..], m, f, fs) == Parse(rest, mode, field, fields)
              && ParserFlags(rest, mode, field) == seq(n, i => m == InQuotes) + ParserFlags(rest[n..], m, f)
  {
    var c := rest[0];
    if mode == InQuotes && c == '"' && |rest| > 1 && rest[1] == '"' {
      n, m, f, fs := 2, InQuotes, field + ['"'], fields;
      assert seq(2, i => m == InQuotes) == [true, true];
    } else {
      n := 1;
      if mode == InQuotes {
        m, f, fs := if c == '"' then AfterQuotes else InQuotes, if c == '"' then field else field + [c], fields;
      } else if c == ',' {
        m, f, fs := Plain, [], fields + [field];
      } else if c == '"' {
        m, f, fs := InQuotes, [], fields;
      } else {
        m, f, fs := Plain, field + [c], fields;
      }
      assert seq(1, i => m == InQuotes) == [m == InQuotes];
    }
  }

  /** The framer's flag after each character of a stream that it takes for one record. */
  function FramerFlags(s: seq<char>, quoted: bool): seq<bool>
    decreases |s|
  {
    if s == [] then []
    else if s[0] == '"' && quoted && |s| > 1 && s[1] == '"' then [true, true] + FramerFlags(s[2..], quoted)
    else if s[0] == '"' then [!quoted] + FramerFlags(s[1..], !quoted)
    else if s[0] == '\n' && !quoted then [false]
    else [quoted] + FramerFlags(s[1..], quoted)
  }

  lemma {:induction false} FramerFlagsCover(s: seq<char>, quoted: bool)
    ensures |FramerFlags(s, quoted)| == if Frame(s, quoted).Line? then Frame(s, quoted).n else |s|
    decreases |s|
  {
    if s != [] {
      if s[0] == '"' && quoted && |s| > 1 && s[1] == '"' {
        FramerFlagsCover(s[2..], quoted);
      } else if s[0] == '"' {
        FramerFlagsCover(s[1..], !quoted);
      } else if s[0] != '\n' || quoted {
        FramerFlagsCover(s[1..], quoted);
      }
    }
  }

  /** As far as both go, the flags are the same. */
  predicate SameFlags(a: seq<bool>, b: seq<bool>)
  {
    forall i :: 0 <= i < |a| && i < |b| ==> a[i] == b[i]
  }

  lemma {:induction false} TailFlags(tail: seq<char>, more: seq<char>)
    requires Tail(tail)
    ensures SameFlags(seq(|tail|, i => false), FramerFlags(tail + more, false))
  {
    if tail != [] {
      assert (tail + more)[0] == tail[0] && (tail + more)[1..] == tail[1..] + more;
      TailFlags(tail[1..], more);
      var a, b := seq(|tail|, i => false), FramerFlags(tail + more, false);
      forall i | 0 <= i < |a| && i < |b| ensures a[i] == b[i] {
        if i > 0 {
          assert seq(|tail[1..]|, i => false)[i - 1] == FramerFlags(tail[1..] + more, false)[i - 1];
        }
      }
    }
  }

  lemma SameFlagsAfter(front: seq<bool>, a: seq<bool>, b: seq<bool>)
    requires SameFlags(a, b)
    ensures SameFlags(front + a, front + b)
  {
    forall i | 0 <= i < |front + a| && i < |front + b| ensures (front + a)[i] == (front + b)[i] {
      if i >= |front| {
        assert a[i - |front|] == b[i - |front|];
      }
    }
  }

  /** What can follow a row without changing how its last character reads. */
  predicate MayFollow(row: seq<char>, more: seq<char>)
  {
    more == [] || row == [] || LineBreak(row[|row| - 1])
  }

  lemma {:induction false} FlagsAgree(rest: seq<char>, mode: Mode, field: Field, fields: seq<Field>, more: seq<char>)
    requires Parse(rest, mode, field, fields).Fields? && MayFollow(rest, more)
    ensures |ParserFlags(rest, mode, field)| == |rest|
    ensures SameFlags(ParserFlags(rest, mode, field), FramerFlags(rest + more, mode == InQuotes))
    decreases |rest|
  {
    if rest == [] {
      return;
    }
    var s := rest + more;
    assert s[0] == rest[0] && s[1..] == rest[1..] + more;
    var next := rest[1..] + more;
    if mode == InQuotes {
      if rest[0] != '"' {
        FlagsAgree(rest[1..], InQuotes, field + [rest[0]], fields, more);
        SameFlagsAfter([true], ParserFlags(rest[1..], InQuotes, field + [rest[0]]), FramerFlags(next, true));
      } else if |rest| > 1 && rest[1] == '"' {
        assert s[1] == rest[1] && s[2..] == rest[2..] + more;
        FlagsAgree(rest[2..], InQuotes, field + ['"'], fields, more);
        SameFlagsAfter([true, true], ParserFlags(rest[2..], InQuotes, field + ['"']), FramerFlags(rest[2..] + more, true));
      } else {
        assert |rest| > 1 ==> s[1] == rest[1];
        FlagsAgree(rest[1..], AfterQuotes, field, fields, more);
        SameFlagsAfter([false], ParserFlags(rest[1..], AfterQuotes, field), FramerFlags(next, false));
      }
    } else if LineBreak(rest[0]) {
      TailFlags(rest, more);
    } else if rest[0] == ',' {
      FlagsAgree(rest[1..], Plain, [], fields + [field], more);
      SameFlagsAfter([false], ParserFlags(rest[1..], Plain, []), FramerFlags(next, false));
    } else if rest[0] == '"' {
      FlagsAgree(rest[1..], InQuotes, [], fields, more);
      SameFlagsAfter([true], ParserFlags(rest[1..], InQuotes, []), FramerFlags(next, true));
    } else {
      FlagsAgree(rest[1..], Plain, field + [rest[0]], fields, more);
      SameFlagsAfter([false], ParserFlags(rest[1..], Plain, field + [rest[0]]), FramerFlags(next, false));
    }
  }

  /**
   For every row that the parser accepts, and anything behind it if it ends in a line break: the framer's
   toggling flag is the parser's quoted state after every character that the framer takes.
   */
  lemma FlagsAgreeEverywhere(row: seq<char>, more: seq<char>, k: nat)
    requires Parse(row, Plain, [], []).Fields? && MayFollow(row, more)
    requires k < |row| && (Frame(row + more, false).Line? ==> k < Frame(row + more, false).n)
    ensures |ParserFlags(row, Plain, [])| == |row| && k < |FramerFlags(row + more, false)|
    ensures FramerFlags(row + more, false)[k] == ParserFlags(row, Plain, [])[k]
  {
    FlagsAgree(row, Plain, [], [], more);
    FramerFlagsCover(row + more, false);
  }

  // ----- Round trips -----

  /**
   Reading back what was encoded, with anything behind it, gives exactly the fields and leaves
   exactly what was behind, if and only if there was a field at all.
   */
  lemma StreamRoundTrip(fields: seq<Field>, rest: seq<char>)
    ensures ReadSpec(Encoding(fields) + rest) == (Fields(fields), rest) <==> fields != []
  {
    if fields != [] {
      ReadsTheRecord(Encoding(fields), rest, ItemsOf(fields), ['\n']);
    } else {
      NoFieldsReadAsOne(rest);
    }
  }

  /** An empty row is written as a bare line feed, which reads back as one empty field. */
  lemma NoFieldsReadAsOne(rest: seq<char>)
    ensures ReadSpec(Encoding([]) + rest) == (Fields([[]]), rest)
  {
    var row := Encoding([]);
    assert row == ['\n'];
    assert Body([Bare([])]) + ['\n'] == row;
    ReadsTheRecord(row, rest, [Bare([])], ['\n']);
    assert Values([Bare([])]) == [[]];
  }

  /** Different lists of fields are written differently, the empty list included. */
  lemma EncodingIsInjective(a: seq<Field>, b: seq<Field>)
    requires Encoding(a) == Encoding(b)
    ensures a == b
  {
    assert Encoding([]) == ['\n'];
    if a != [] && b != [] {
      StreamRoundTrip(a, []);
      StreamRoundTrip(b, []);
    } else if a != [] || b != [] {
      EncodingIsLonger(if a != [] then a else b);
      assert false;
    }
  }

  lemma EncodingIsLonger(fields: seq<Field>)
    requires fields != []
    ensures |Encoding(fields)| > 1
  {
    var items := ItemsOf(fields);
    assert |Write(items[0])| > 0;
  }

  function EncodeAll(rows: seq<seq<Field>>): seq<char>
  {
    if rows == [] then [] else Encoding(rows[0]) + EncodeAll(rows[1..])
  }

  /** The rows read from a stream until a read fails. */
  function ReadAllSpec(rest: seq<char>): seq<seq<Field>>
    decreases |rest|
  {
    var (r, left) := ReadSpec(rest);
    if r.Rejected? || |left| >= |rest| then [] else [r.fields] + ReadAllSpec(left)
  }

  lemma ReadAllStep(rest: seq<char>)
    ensures ReadAllSpec(rest) == if ReadSpec(rest).0.Fields? then [ReadSpec(rest).0.fields] + ReadAllSpec(ReadSpec(rest).1) else []
  {
    ReadMakesProgress(rest);
  }

  lemma ReadMakesProgress(rest: seq<char>)
    ensures ReadSpec(rest).0.Fields? ==> |ReadSpec(rest).1| < |rest|
  {
  }

  method ReadAll(input: Input) returns (rows: seq<seq<Field>>)
    requires input.Valid()
    modifies input
    ensures input.Valid() && rows == ReadAllSpec(old(input.Rest()))
  {
    ghost var all := ReadAllSpec(input.Rest());
    rows := [];
    ReadAllStep(input.Rest());
    var r := input.ReadRow();
    while r.Fields?
      invariant input.Valid()
      invariant all == rows + (if r.Fields? then [r.fields] else [])
                       + if r.Fields? then ReadAllSpec(input.Rest()) else []
      decreases |input.Rest()| + if r.Fields? then 1 else 0
    {
      ghost var rest := input.Rest();
      ReadAllStep(rest);
      ReadMakesProgress(rest);
      rows := rows + [r.fields];
      r := input.ReadRow();
      Continues(all, rows, rest, r, input.Rest());
    }
  }

  lemma Continues(all: seq<seq<Field>>, rows: seq<seq<Field>>, rest: seq<char>, r: Result, left: seq<char>)
    requires all == rows + ReadAllSpec(rest) && ReadSpec(rest) == (r, left)
    ensures all == rows + (if r.Fields? then [r.fields] else []) + if r.Fields? then ReadAllSpec(left) else []
  {
    ReadAllStep(rest);
    if r.Fields? {
      assert rows + ([r.fields] + ReadAllSpec(left)) == (rows + [r.fields]) + ReadAllSpec(left);
    }
  }

  /** What rows become in a file: a row without fields is read as one empty field. */
  function ReadBack(rows: seq<seq<Field>>): (r: seq<seq<Field>>)
    ensures |r| == |rows|
    ensures forall i :: 0 <= i < |rows| ==> r[i] == if rows[i] == [] then [[]] else rows[i]
  {
    if rows == [] then [] else [if rows[0] == [] then [[]] else rows[0]] + ReadBack(rows[1..])
  }

  lemma {:induction false} FileReadsBack(rows: seq<seq<Field>>)
    ensures ReadAllSpec(EncodeAll(rows)) == ReadBack(rows)
  {
    if rows == [] {
      assert ReadSpec([]) == (Rejected, []);
    } else {
      var rest := EncodeAll(rows[1..]);
      if rows[0] == [] {
        NoFieldsReadAsOne(rest);
      } else {
        StreamRoundTrip(rows[0], rest);
      }
      ReadAllStep(EncodeAll(rows));
      FileReadsBack(rows[1..]);
    }
  }

  /** A whole file of encoded rows reads back to the same rows if and only if none of them is empty. */
  lemma FileRoundTrip(rows: seq<seq<Field>>)
    ensures ReadAllSpec(EncodeAll(rows)) == rows <==> forall i :: 0 <= i < |rows| ==> rows[i] != []
  {
    FileReadsBack(rows);
    assert forall i :: 0 <= i < |rows| ==> (ReadBack(rows)[i] == rows[i] <==> rows[i] != []);
  }
}
