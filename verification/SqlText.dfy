/** The SQL text the Postgres store prints by hand (packages/db/src/postgres.ts:841-854, 948-962), and a reader for
    it: character string literals as section 5.3 <literal> of ISO/IEC 9075-2 has them, value lists and
    assignment lists. */
module SqlText {
  import opened Sequences

  // ----- printing -----

  /** replaceAll("'", "''") */
  function Doubled(s: string): string {
    if s == "" then ""
    else (if s[0] == '\'' then "''" else [s[0]]) + Doubled(s[1..])
  }

  function SqlLiteral(s: string): string {
    "'" + Doubled(s) + "'"
  }

  /** The values sqlValue tells apart; a valid date comes with its ISO text, a finite number with String(value), and an object or
      array that JSON.stringify gives a text for with that text. An invalid date makes toISOString throw, and a cycle
      or a bigint makes JSON.stringify throw. */
  datatype JsValue =
    | Undefined
    | JsNull
    | JsDate(valid: bool, iso: string)
    | JsNumber(finite: bool, numeral: string)
    | JsBoolean(b: bool)
    | JsObject(serialisable: bool, json: string)
    | JsString(s: string)

  datatype SqlValue = Null | Text(s: string) | Number(numeral: string) | Boolean(b: bool) | Json(s: string)

  /** What the database should receive, or None where sqlValue throws. */
  function Meaning(v: JsValue): Option<SqlValue> {
    match v
    case Undefined => Some(Null)
    case JsNull => Some(Null)
    case JsDate(valid, iso) => if valid then Some(Text(iso)) else None
    case JsNumber(finite, numeral) => if finite then Some(Number(numeral)) else None
    case JsBoolean(b) => Some(Boolean(b))
    case JsObject(serialisable, json) => if serialisable then Some(Json(json)) else None
    case JsString(s) => Some(Text(s))
  }

  /** sqlValue: None where it throws. */
  function SqlValueText(v: JsValue): Option<string> {
    match v
    case Undefined => Some("NULL")
    case JsNull => Some("NULL")
    case JsDate(valid, iso) => if valid then Some(SqlLiteral(iso)) else None
    case JsNumber(finite, numeral) => if finite then Some(numeral) else None
    case JsBoolean(b) => Some(if b then "TRUE" else "FALSE")
    case JsObject(serialisable, json) => if serialisable then Some(SqlLiteral(json) + "::jsonb") else None
    case JsString(s) => Some(SqlLiteral(s))
  }

  /** Object.entries(...).map(sqlValue).join(", ") */
  function ValuesText(values: seq<JsValue>): Option<string> {
    if values == [] then Some("")
    else
      var first := SqlValueText(values[0]);
      var more := ValuesText(values[1..]);
      if first.None? || more.None? then None
      else if |values| == 1 then first
      else Some(first.value + ", " + more.value)
  }

  datatype Entry = Entry(column: string, value: JsValue)

  function NotId(): Entry -> bool {
    (e: Entry) => e.column != "id"
  }

  /** The assignments of update: every column but id. */
  function AssignmentsText(entries: seq<Entry>): Option<string> {
    JoinAssignments(Filter(NotId(), entries))
  }

  function JoinAssignments(entries: seq<Entry>): Option<string> {
    if entries == [] then Some("")
    else
      var first := SqlValueText(entries[0].value);
      var more := JoinAssignments(entries[1..]);
      if first.None? || more.None? then None
      else if |entries| == 1 then Some(entries[0].column + " = " + first.value)
      else Some(entries[0].column + " = " + first.value + ", " + more.value)
  }

  // ----- reading -----

  datatype Read<+T> = Read(value: T, rest: string)

  predicate White(c: char) {
    c == ' ' || c == '\t' || c == '\n' || c == '\r'
  }

  /** After a closing quote, white space with a newline in it and another quote continue the literal. */
  function Continuation(text: string, newline: bool): (r: Option<string>)
    ensures r.Some? ==> |r.value| < |text|
  {
    if text == "" then None
    else if White(text[0]) then Continuation(text[1..], newline || text[0] == '\n')
    else if text[0] == '\'' && newline then Some(text[1..])
    else None
  }

  /** The body of a character string literal, from behind its opening quote. */
  function Scan(text: string): (r: Option<Read<string>>)
    ensures r.Some? ==> |r.value.rest| < |text|
    decreases |text|
  {
    if text == "" then None
    else if text[0] != '\'' then Prepend(text[0], Scan(text[1..]))
    else if |text| > 1 && text[1] == '\'' then Prepend('\'', Scan(text[2..]))
    else
      match Continuation(text[1..], false)
      case Some(more) => Scan(more)
      case None => Some(Read("", text[1..]))
  }

  function Prepend(c: char, r: Option<Read<string>>): Option<Read<string>> {
    if r.None? then None else Some(Read([c] + r.value.value, r.value.rest))
  }

  function ReadLiteral(text: string): Option<Read<string>> {
    if text == "" || text[0] != '\'' then None else Scan(text[1..])
  }

  predicate EndsWord(c: char) {
    c == ',' || c == ')' || c == ' '
  }

  function WordLength(text: string): (n: nat)
    ensures n <= |text|
  {
    if text == "" || EndsWord(text[0]) then 0 else 1 + WordLength(text[1..])
  }

  const CAST := "::jsonb"

  function ReadValue(text: string): (r: Option<Read<SqlValue>>)
    ensures r.Some? ==> |r.value.rest| < |text|
  {
    if text != "" && text[0] == '\'' then
      var r := ReadLiteral(text);
      if r.None? then None
      else if CAST <= r.value.rest then Some(Read(Json(r.value.value), r.value.rest[|CAST|..]))
      else Some(Read(Text(r.value.value), r.value.rest))
    else
      var n := WordLength(text);
      var word := text[..n];
      if word == "" then None
      else if word == "NULL" then Some(Read(Null, text[n..]))
      else if word == "TRUE" then Some(Read(Boolean(true), text[n..]))
      else if word == "FALSE" then Some(Read(Boolean(false), text[n..]))
      else Some(Read(Number(word), text[n..]))
  }

  /** A value list up to its closing parenthesis. */
  function ReadValues(text: string): Option<Read<seq<SqlValue>>>
    decreases |text|
  {
    if text != "" && text[0] == ')' then Some(Read([], text[1..]))
    else
      var first := ReadValue(text);
      if first.None? then None
      else
        var rest := first.value.rest;
        if rest != "" && rest[0] == ')' then Some(Read([first.value.value], rest[1..]))
        else if ", " <= rest then
          var more := ReadValues(rest[2..]);
          if more.None? then None else Some(Read([first.value.value] + more.value.value, more.value.rest))
        else None
  }

  function ReadAssignments(text: string): Option<Read<seq<(string, SqlValue)>>>
    decreases |text|
  {
    if text == "" || text[0] == ' ' then Some(Read([], text))
    else
      var n := WordLength(text);
      var column := text[..n];
      if !(" = " <= text[n..]) then None
      else
        var first := ReadValue(text[n + 3..]);
        if first.None? then None
        else
          var rest := first.value.rest;
          if ", " <= rest then
            var more := ReadAssignments(rest[2..]);
            if more.None? then None
            else Some(Read([(column, first.value.value)] + more.value.value, more.value.rest))
          else Some(Read([(column, first.value.value)], rest))
  }

  // ----- literals -----

  predicate StartsWith(text: string, c: char) {
    text != "" && text[0] == c
  }

  lemma ScanQuote(more: string)
    ensures Scan("''" + more) == Prepend('\'', Scan(more))
  {
    assert ("''" + more)[2..] == more;
  }

  lemma ScanOther(c: char, more: string)
    requires c != '\''
    ensures Scan([c] + more) == Prepend(c, Scan(more))
  {
    assert ([c] + more)[1..] == more;
  }

  /** r, with s read before it. */
  function Before(s: string, r: Option<Read<string>>): Option<Read<string>> {
    if r.None? then None else Some(Read(s + r.value.value, r.value.rest))
  }

  lemma PrependBefore(c: char, s: string, r: Option<Read<string>>)
    ensures Prepend(c, Before(s, r)) == Before([c] + s, r)
  {
    if r.Some? {
      assert [c] + (s + r.value.value) == [c] + s + r.value.value;
    }
  }

  lemma {:induction false} ScanDoubled(s: string, tail: string)
    ensures Scan(Doubled(s) + tail) == Before(s, Scan(tail))
  {
    if s == "" {
      assert Doubled(s) + tail == tail;
      assert Scan(tail).Some? ==> "" + Scan(tail).value.value == Scan(tail).value.value;
    } else {
      var more := Doubled(s[1..]) + tail;
      ScanDoubled(s[1..], tail);
      PrependBefore(s[0], s[1..], Scan(tail));
      assert [s[0]] + s[1..] == s;
      if s[0] == '\'' {
        assert Doubled(s) + tail == "''" + more;
        ScanQuote(more);
      } else {
        assert Doubled(s) + tail == [s[0]] + more;
        ScanOther(s[0], more);
      }
    }
  }

  /** Reading a printed literal gives back the string and stops right behind it, for every string, exactly
      when what follows neither starts with a quote nor continues the literal on a new line. */
  lemma LiteralReadsBack(s: string, rest: string)
    ensures ReadLiteral(SqlLiteral(s) + rest) == Some(Read(s, rest))
       <==> !StartsWith(rest, '\'') && Continuation(rest, false).None?
  {
    var tail := "'" + rest;
    var text := SqlLiteral(s) + rest;
    assert text[1..] == Doubled(s) + tail;
    ScanDoubled(s, tail);
    assert tail[1..] == rest;
    assert s + "" == s;
    if StartsWith(rest, '\'') {
      assert tail[2..] == rest[1..];
    }
  }

  // ----- values -----

  predicate NumeralChar(c: char) {
    '0' <= c <= '9' || c == '+' || c == '-' || c == '.' || c == 'e' || c == 'E'
  }

  /** What String(number) makes of a finite number: digits, signs, a point, an exponent. */
  predicate IsNumeral(s: string) {
    s != "" && forall i :: 0 <= i < |s| ==> NumeralChar(s[i])
  }

  /** What sqlValue throws on. */
  predicate Unprintable(v: JsValue) {
    match v
    case JsDate(valid, _) => !valid
    case JsNumber(finite, _) => !finite
    case JsObject(serialisable, _) => !serialisable
    case _ => false
  }

  predicate Printable(v: JsValue) {
    !Unprintable(v) && (v.JsNumber? ==> IsNumeral(v.numeral))
  }

  /** insert throws before it sends anything exactly when one of its values is an invalid date, a non-finite number, or
      an object without a JSON text. */
  lemma {:induction false} InsertThrowsExactly(values: seq<JsValue>)
    ensures ValuesText(values).None? <==> exists v :: v in values && Unprintable(v)
  {
    if values != [] {
      InsertThrowsExactly(values[1..]);
      assert values == [values[0]] + values[1..];
      assert values[0] in values;
    }
  }

  lemma {:induction false} JoinThrowsExactly(entries: seq<Entry>)
    ensures JoinAssignments(entries).None? <==> exists e :: e in entries && Unprintable(e.value)
  {
    if entries != [] {
      JoinThrowsExactly(entries[1..]);
      assert entries == [entries[0]] + entries[1..];
      assert entries[0] in entries;
    }
  }

  /** update throws exactly on such a value in another column than id. */
  lemma UpdateThrowsExactly(entries: seq<Entry>)
    ensures AssignmentsText(entries).None? <==> exists e :: e in entries && e.column != "id" && Unprintable(e.value)
  {
    JoinThrowsExactly(Filter(NotId(), entries));
    FilterMembers(NotId(), entries);
  }

  lemma {:induction false} WordStops(word: string, rest: string)
    requires forall i :: 0 <= i < |word| ==> !EndsWord(word[i])
    requires rest != "" && EndsWord(rest[0])
    ensures WordLength(word + rest) == |word|
  {
    if word == "" {
      assert word + rest == rest;
    } else {
      WordStops(word[1..], rest);
      assert (word + rest)[1..] == word[1..] + rest;
    }
  }

  lemma WordReadsBack(word: string, rest: string)
    requires word != "" && word[0] != '\'' && forall i :: 0 <= i < |word| ==> !EndsWord(word[i])
    requires rest != "" && EndsWord(rest[0])
    ensures var n := WordLength(word + rest); (word + rest)[..n] == word && (word + rest)[n..] == rest
    ensures (word + rest)[0] != '\''
  {
    WordStops(word, rest);
  }

  /** What may follow a value in the texts the store prints. */
  predicate Delimited(rest: string) {
    rest != "" && EndsWord(rest[0]) && Continuation(rest, false).None? && !(CAST <= rest)
  }

  lemma TextReadsBack(s: string, rest: string)
    requires Delimited(rest)
    ensures ReadValue(SqlLiteral(s) + rest) == Some(Read(Text(s), rest))
  {
    LiteralReadsBack(s, rest);
  }

  lemma ObjectReadsBack(json: string, rest: string)
    requires Delimited(rest)
    ensures ReadValue(SqlLiteral(json) + "::jsonb" + rest) == Some(Read(Json(json), rest))
  {
    var cast := CAST + rest;
    assert SqlLiteral(json) + "::jsonb" + rest == SqlLiteral(json) + cast;
    assert cast[|CAST|..] == rest;
    LiteralReadsBack(json, cast);
  }

  lemma ValueReadsBack(v: JsValue, rest: string)
    requires Printable(v) && Delimited(rest)
    ensures SqlValueText(v).Some?
    ensures ReadValue(SqlValueText(v).value + rest) == Some(Read(Received(v), rest))
  {
    match v
    case Undefined => WordReadsBack("NULL", rest);
    case JsNull => WordReadsBack("NULL", rest);
    case JsDate(_, iso) => TextReadsBack(iso, rest);
    case JsNumber(_, numeral) => WordReadsBack(numeral, rest);
    case JsBoolean(b) => WordReadsBack(if b then "TRUE" else "FALSE", rest);
    case JsObject(_, json) => ObjectReadsBack(json, rest);
    case JsString(s) => TextReadsBack(s, rest);
  }

  /** What the database receives for a value that prints. */
  function Received(v: JsValue): SqlValue
    requires Printable(v)
  {
    assert Meaning(v).Some?;
    Meaning(v).value
  }

  function Meanings(values: seq<JsValue>): seq<SqlValue>
    requires forall v :: v in values ==> Printable(v)
  {
    if values == [] then [] else assert values[0] in values; [Received(values[0])] + Meanings(values[1..])
  }

  lemma ValueNotEmpty(v: JsValue)
    requires Printable(v)
    ensures SqlValueText(v).Some? && SqlValueText(v).value != "" && SqlValueText(v).value[0] != ')'
    ensures SqlValueText(v).value[0] != ' '
  {
  }

  lemma LastValueReadsBack(v: JsValue, rest: string)
    requires Printable(v)
    ensures SqlValueText(v).Some?
    ensures ReadValues(SqlValueText(v).value + (")" + rest)) == Some(Read([Received(v)], rest))
  {
    var tail := ")" + rest;
    ValueNotEmpty(v);
    ValueReadsBack(v, tail);
    assert tail[1..] == rest;
  }

  lemma FirstValueReadsBack(v: JsValue, more: string, r: Read<seq<SqlValue>>)
    requires Printable(v) && ReadValues(more) == Some(r)
    ensures SqlValueText(v).Some?
    ensures ReadValues(SqlValueText(v).value + (", " + more)) == Some(Read([Received(v)] + r.value, r.rest))
  {
    var tail := ", " + more;
    ValueNotEmpty(v);
    ValueReadsBack(v, tail);
    assert tail[2..] == more;
  }

  lemma Regroup(a: string, b: string, c: string, d: string, e: string)
    ensures a + b + c + d + e == a + (b + (c + d + e))
  {
    assert a + b + c + d + e == (a + b) + (c + d + e);
  }

  /** The VALUES list of insert reads back as the list of values it was printed from. */
  lemma {:induction false} ValuesReadBack(values: seq<JsValue>, rest: string)
    requires forall v :: v in values ==> Printable(v)
    ensures ValuesText(values).Some?
    ensures ReadValues(ValuesText(values).value + ")" + rest) == Some(Read(Meanings(values), rest))
    decreases |values|
  {
    if values == [] {
      var tail := ")" + rest;
      assert "" + ")" + rest == tail;
      assert tail[1..] == rest;
    } else {
      var v := values[0];
      assert v in values;
      ValueNotEmpty(v);
      ValuesReadBack(values[1..], rest);
      var first, more := SqlValueText(v).value, ValuesText(values[1..]).value;
      if |values| == 1 {
        LastValueReadsBack(v, rest);
        assert first + ")" + rest == first + (")" + rest);
        assert Meanings(values) == [Received(v)];
      } else {
        FirstValueReadsBack(v, more + ")" + rest, Read(Meanings(values[1..]), rest));
        Regroup(first, ", ", more, ")", rest);
      }
    }
  }

  /** Two value lists with different meanings never print the same text. */
  lemma ValuesAreNotConfused(x: seq<JsValue>, y: seq<JsValue>)
    requires forall v :: v in x ==> Printable(v)
    requires forall v :: v in y ==> Printable(v)
    requires ValuesText(x) == ValuesText(y)
    ensures Meanings(x) == Meanings(y)
  {
    ValuesReadBack(x, "");
    ValuesReadBack(y, "");
  }

  // ----- assignments -----

  predicate IsColumn(s: string) {
    s != "" && forall i :: 0 <= i < |s| ==> ('a' <= s[i] <= 'z' || s[i] == '_')
  }

  predicate PrintableEntry(e: Entry) {
    IsColumn(e.column) && Printable(e.value)
  }

  function Assignments(entries: seq<Entry>): seq<(string, SqlValue)>
    requires forall e :: e in entries ==> PrintableEntry(e)
  {
    if entries == [] then []
    else
      assert entries[0] in entries && PrintableEntry(entries[0]);
      [(entries[0].column, Received(entries[0].value))] + Assignments(entries[1..])
  }

  lemma OneAssignmentReadsBack(e: Entry, rest: string)
    requires PrintableEntry(e) && Delimited(rest)
    ensures SqlValueText(e.value).Some?
    ensures var text := e.column + (" = " + (SqlValueText(e.value).value + rest));
            var n := WordLength(text);
            && text != "" && text[0] != ' ' && n + 3 <= |text|
            && text[..n] == e.column && " = " <= text[n..]
            && ReadValue(text[n + 3..]) == Some(Read(Received(e.value), rest))
  {
    ValueReadsBack(e.value, rest);
    var value := SqlValueText(e.value).value + rest;
    var behind := " = " + value;
    WordReadsBack(e.column, behind);
    var text := e.column + behind;
    var n := WordLength(text);
    assert text[n..] == behind;
    assert behind[3..] == value;
    assert text[n + 3..] == text[n..][3..];
  }

  lemma LastAssignmentReadsBack(e: Entry, where: string)
    requires PrintableEntry(e)
    ensures SqlValueText(e.value).Some?
    ensures ReadAssignments(e.column + (" = " + (SqlValueText(e.value).value + (" WHERE " + where))))
         == Some(Read([(e.column, Received(e.value))], " WHERE " + where))
  {
    var tail := " WHERE " + where;
    assert tail[1..] == "WHERE " + where;
    OneAssignmentReadsBack(e, tail);
  }

  lemma FirstAssignmentReadsBack(e: Entry, more: string, r: Read<seq<(string, SqlValue)>>)
    requires PrintableEntry(e) && ReadAssignments(more) == Some(r)
    ensures SqlValueText(e.value).Some?
    ensures ReadAssignments(e.column + (" = " + (SqlValueText(e.value).value + (", " + more))))
         == Some(Read([(e.column, Received(e.value))] + r.value, r.rest))
  {
    var tail := ", " + more;
    OneAssignmentReadsBack(e, tail);
    assert tail[2..] == more;
  }

  lemma RegroupAssignment(column: string, eq: string, value: string, rest: string)
    ensures column + eq + value + rest == column + (eq + (value + rest))
  {
    assert column + eq + value + rest == (column + eq) + (value + rest);
  }

  lemma RegroupAssignments(column: string, eq: string, value: string, comma: string, more: string, tail: string, where: string)
    ensures column + eq + value + comma + more + tail + where == column + (eq + (value + (comma + (more + tail + where))))
  {
    Regroup(column + eq + value, comma, more, tail, where);
    RegroupAssignment(column, eq, value, comma + (more + tail + where));
  }

  lemma {:induction false} JoinedAssignmentsReadBack(entries: seq<Entry>, where: string)
    requires forall e :: e in entries ==> PrintableEntry(e)
    ensures JoinAssignments(entries).Some?
    ensures ReadAssignments(JoinAssignments(entries).value + " WHERE " + where)
         == Some(Read(Assignments(entries), " WHERE " + where))
    decreases |entries|
  {
    if entries == [] {
      assert "" + " WHERE " + where == " WHERE " + where;
    } else {
      var e := entries[0];
      assert e in entries;
      ValueNotEmpty(e.value);
      JoinedAssignmentsReadBack(entries[1..], where);
      var value, more := SqlValueText(e.value).value, JoinAssignments(entries[1..]).value;
      if |entries| == 1 {
        LastAssignmentReadsBack(e, where);
        assert Assignments(entries) == [(e.column, Received(e.value))];
        assert e.column + " = " + value + " WHERE " + where == e.column + " = " + value + (" WHERE " + where);
        RegroupAssignment(e.column, " = ", value, " WHERE " + where);
      } else {
        FirstAssignmentReadsBack(e, more + " WHERE " + where, Read(Assignments(entries[1..]), " WHERE " + where));
        RegroupAssignments(e.column, " = ", value, ", ", more, " WHERE ", where);
      }
    }
  }

  /** What UPDATE sets reads back as the entries without the id, each column with its own value. */
  lemma UpdateReadsBack(entries: seq<Entry>, where: string)
    requires forall e :: e in entries ==> PrintableEntry(e)
    ensures AssignmentsText(entries).Some?
    ensures (forall e :: e in Filter(NotId(), entries) ==> PrintableEntry(e))
         && ReadAssignments(AssignmentsText(entries).value + " WHERE " + where)
              == Some(Read(Assignments(Filter(NotId(), entries)), " WHERE " + where))
  {
    FilterMembers(NotId(), entries);
    JoinedAssignmentsReadBack(Filter(NotId(), entries), where);
  }

  // ----- what is received, case by case -----

  /** A value throws exactly when it is an invalid date, a number that is not finite or an object without a JSON text. Else the
      database receives NULL for undefined and null, the same text for a string and for a date its own, and numbers,
      booleans and objects as such. */
  lemma ReceivedIs(v: JsValue, text: string, b: bool)
    ensures SqlValueText(v).None? <==> (v.JsDate? && !v.valid) || (v.JsNumber? && !v.finite) || (v.JsObject? && !v.serialisable)
    ensures Printable(v) ==>
      && (Received(v) == Null <==> v == Undefined || v == JsNull)
      && (Received(v) == Text(text) <==> v == JsString(text) || v == JsDate(true, text))
      && (Received(v) == Number(text) <==> v == JsNumber(true, text))
      && (Received(v) == Boolean(b) <==> v == JsBoolean(b))
      && (Received(v) == Json(text) <==> v == JsObject(true, text))
  {
  }

  /** Two values print alike exactly when they are the same, or both undefined or null, or a date and a string with its text. */
  lemma PrintedAlikeExactly(v: JsValue, w: JsValue)
    requires Printable(v) && Printable(w)
    ensures SqlValueText(v) == SqlValueText(w)
       <==> v == w || (v in {Undefined, JsNull} && w in {Undefined, JsNull})
            || (v.JsDate? && w == JsString(v.iso)) || (w.JsDate? && v == JsString(w.iso))
  {
    var rest := ", ";
    assert Delimited(rest);
    ValueReadsBack(v, rest);
    ValueReadsBack(w, rest);
    if SqlValueText(v) == SqlValueText(w) {
      assert Received(v) == Received(w);
    }
  }

  lemma {:induction false} MeaningAt(values: seq<JsValue>, i: nat)
    requires i < |values| && forall v :: v in values ==> Printable(v)
    ensures |Meanings(values)| == |values| && Meanings(values)[i] == Received(values[i])
  {
    assert values[0] in values;
    if |values| > 1 {
      MeaningAt(values[1..], if i == 0 then 0 else i - 1);
    }
  }

  /** Each assignment is of the value in its place to the column in its place. */
  lemma {:induction false} AssignmentAt(entries: seq<Entry>, i: nat)
    requires i < |entries| && forall e :: e in entries ==> PrintableEntry(e)
    ensures |Assignments(entries)| == |entries|
    ensures entries[i] in entries && Assignments(entries)[i] == (entries[i].column, Received(entries[i].value))
  {
    assert entries[0] in entries && PrintableEntry(entries[0]);
    if |entries| > 1 {
      AssignmentAt(entries[1..], if i == 0 then 0 else i - 1);
    }
  }
}
