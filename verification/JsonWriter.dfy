/** Writing a nested map as JSON, so that a reader gets the map back. */
module JsonWriter {
  import opened Wrappers
  import opened Numerals
  import opened JsonReader

  type U64 = n: nat | n < 0x1_0000_0000_0000_0000

  /** The entries of an ordered map, in iteration order. */
  type Entries<V> = seq<(Key, V)>

  // ---- strings ----

  function HexDigit(d: nat): char
    requires d < 16
  {
    if d < 10 then CharOf(d) else (d - 10 + 'a' as int) as char
  }

  function Escape(c: Byte): string {
    if c == 0x22 then "\\\""
    else if c == 0x5C then "\\\\"
    else if c == 0x08 then "\\b"
    else if c == 0x0C then "\\f"
    else if c == 0x0A then "\\n"
    else if c == 0x0D then "\\r"
    else if c == 0x09 then "\\t"
    else if c < 0x20 then "\\u" + ['0', '0', HexDigit(c / 16), HexDigit(c % 16)]
    else [c as char]
  }

  function EscapeAll(bytes: seq<Byte>): string {
    if bytes == [] then "" else EscapeAll(bytes[..|bytes| - 1]) + Escape(bytes[|bytes| - 1])
  }

  method JsonEscape(bytes: seq<Byte>) returns (out: string)
    ensures out == EscapeAll(bytes)
  {
    out := "";
    var i := 0;
    while i < |bytes|
      invariant 0 <= i <= |bytes| && out == EscapeAll(bytes[..i])
    {
      assert bytes[..i + 1][..i] == bytes[..i];
      var c := bytes[i];
      match c {
        case 0x22 => out := out + "\\\"";
        case 0x5C => out := out + "\\\\";
        case 0x08 => out := out + "\\b";
        case 0x0C => out := out + "\\f";
        case 0x0A => out := out + "\\n";
        case 0x0D => out := out + "\\r";
        case 0x09 => out := out + "\\t";
        case _ =>
          if c < 0x20 {
            out := out + ("\\u" + ['0', '0', HexDigit(c / 16), HexDigit(c % 16)]);
          } else {
            out := out + [c as char];
          }
      }
      i := i + 1;
    }
    assert bytes[..i] == bytes;
  }

  lemma EscapeReads(c: Byte, more: string)
    ensures ReadString(Escape(c) + more) == Before([c], ReadString(more))
  {
    var e := Escape(c);
    assert (e + more)[|e|..] == more;
    if |e| == 6 {
      ControlReads(c, more);
    }
  }

  lemma ControlReads(c: Byte, more: string)
    requires |Escape(c)| == 6
    ensures ReadString(Escape(c) + more) == Before([c], ReadString(more))
  {
    var e := Escape(c);
    var s := e + more;
    assert s[0] == '\\' && s[1] == 'u' && s[6..] == more;
    assert s[2..][0] == '0' && s[2..][1] == '0' && s[2..][2] == e[4] && s[2..][3] == e[5];
    FourHexIs(c, s[2..]);
  }

  lemma FourHexIs(c: Byte, s: string)
    requires c < 0x20 && |s| >= 4 && s[0] == '0' && s[1] == '0'
    requires s[2] == HexDigit(c / 16) && s[3] == HexDigit(c % 16)
    ensures FourHex(s) == Some(c)
  {
  }

  /** What is escaped and closed reads as the bytes, whatever follows. */
  lemma {:induction false} EscapedReads(bytes: seq<Byte>, more: string)
    ensures ReadString(EscapeAll(bytes) + more) == Before(bytes, ReadString(more))
    decreases |bytes|
  {
    if bytes == [] {
      assert EscapeAll(bytes) + more == more;
      assert ReadString(more).Some? ==> [] + ReadString(more).value.0 == ReadString(more).value.0;
    } else {
      var init, last := bytes[..|bytes| - 1], bytes[|bytes| - 1];
      assert EscapeAll(bytes) + more == EscapeAll(init) + (Escape(last) + more);
      EscapedReads(init, Escape(last) + more);
      EscapeReads(last, more);
      BeforeTwice(init, last, bytes, ReadString(more));
    }
  }

  lemma BeforeTwice(init: seq<Byte>, last: Byte, bytes: seq<Byte>, r: Option<(seq<Byte>, string)>)
    requires bytes == init + [last]
    ensures Before(init, Before([last], r)) == Before(bytes, r)
  {
    assert r.Some? ==> init + ([last] + r.value.0) == bytes + r.value.0;
  }

  /** A string in quotes. */
  method Q(bytes: seq<Byte>) returns (out: string)
    ensures IsQuoted(out, bytes)
  {
    var escaped := JsonEscape(bytes);
    out := "\"" + escaped + "\"";
    forall more: string ensures out != "" && out[0] == '"' && ReadsQuoted(out, bytes, more) {
      QuotedReads(bytes, more);
    }
  }

  ghost predicate IsQuoted(out: string, bytes: seq<Byte>) {
    out != "" && out[0] == '"' && forall more: string :: ReadsQuoted(out, bytes, more)
  }

  ghost predicate ReadsQuoted(out: string, bytes: seq<Byte>, more: string)
    requires out != ""
  {
    ReadString(out[1..] + more) == Some((bytes, more))
  }

  lemma QuotedReads(bytes: seq<Byte>, more: string)
    ensures ReadsQuoted("\"" + EscapeAll(bytes) + "\"", bytes, more)
  {
    var out := "\"" + EscapeAll(bytes) + "\"";
    assert out[1..] + more == EscapeAll(bytes) + ("\"" + more);
    EscapedReads(bytes, "\"" + more);
    assert ("\"" + more)[1..] == more && bytes + [] == bytes;
  }

  // ---- numbers ----

  /** A number ends where the next character cannot belong to it. */
  predicate Stops(tail: string) {
    tail != "" && (tail[0] == ',' || tail[0] == '\n' || tail[0] == '}')
  }

  ghost predicate IsValue(out: string, value: Json) {
    forall tail: string | Stops(tail) :: ReadsValue(out, value, tail)
  }

  ghost predicate ReadsValue(out: string, value: Json, tail: string) {
    ReadValue(out + tail) == Some((value, tail))
  }

  lemma {:induction false} DigitRunEnds(digits: string, tail: string)
    requires AllDigits(digits) && Stops(tail)
    ensures DigitRun(digits + tail) == |digits|
    decreases |digits|
  {
    if digits == "" {
      assert digits + tail == tail;
    } else {
      assert (digits + tail)[1..] == digits[1..] + tail;
      DigitRunEnds(digits[1..], tail);
    }
  }

  lemma NumeralIsValue(n: nat)
    ensures IsValue(Numeral(n), Number(Numeral(n)))
  {
    forall tail: string | Stops(tail) ensures ReadsValue(Numeral(n), Number(Numeral(n)), tail) {
      NumeralReads(n, tail);
    }
  }

  lemma NumeralReads(n: nat, tail: string)
    requires Stops(tail)
    ensures ReadsValue(Numeral(n), Number(Numeral(n)), tail)
  {
    var s := Numeral(n) + tail;
    assert IsDigit(s[0]);
    NumberEnds(Numeral(n), tail);
  }

  /** Digits without a leading zero are read as one number. */
  lemma NumberEnds(digits: string, tail: string)
    requires digits != "" && AllDigits(digits) && (digits[0] == '0' ==> digits == "0") && Stops(tail)
    ensures ReadNumber(digits + tail) == Some((digits, tail))
  {
    var s := digits + tail;
    assert s[0] == digits[0] && s[0..] == s;
    DigitRunEnds(digits, tail);
    assert IntegerPart(s) == |digits|;
    assert s[0 + |digits|..] == tail && s[..|digits|] == digits && tail[0..] == tail;
  }

  // ---- members ----

  predicate AllWhitespace(ws: string) {
    forall i | 0 <= i < |ws| :: IsWhitespace(ws[i])
  }

  lemma {:induction false} SkipsAll(ws: string, t: string)
    requires AllWhitespace(ws)
    ensures SkipWhitespace(ws + t) == SkipWhitespace(t)
    decreases |ws|
  {
    if ws == "" {
      assert ws + t == t;
    } else {
      assert (ws + t)[1..] == ws[1..] + t;
      SkipsAll(ws[1..], t);
    }
  }

  function MemberText(name: string, value: string): string {
    name + ": " + value
  }

  function Prefixed(done: seq<(Key, Json)>, r: Option<(seq<(Key, Json)>, string)>): Option<(seq<(Key, Json)>, string)> {
    match r
    case None => None
    case Some((members, rest)) => Some((done + members, rest))
  }

  lemma MemberReads(ws: string, name: string, key: Key, value: string, v: Json, tail: string)
    requires AllWhitespace(ws) && IsQuoted(name, key) && IsValue(value, v) && Stops(tail)
    ensures ReadMembers(ws + (MemberText(name, value) + tail)) == Prefixed([(key, v)], ReadTail(tail))
  {
    var s := MemberText(name, value) + tail;
    SkipsAll(ws, s);
    var after := ": " + (value + tail);
    assert s[1..] == name[1..] + after;
    assert ReadsQuoted(name, key, after);
    ValueReads(value, v, tail);
  }

  lemma ValueReads(value: string, v: Json, tail: string)
    requires IsValue(value, v) && Stops(tail)
    ensures var after := ": " + (value + tail);
            SkipWhitespace(after) == after && ReadValue(after[1..]) == Some((v, tail))
  {
    var after := ": " + (value + tail);
    assert after[1..] == " " + (value + tail);
    SpaceBefore(value + tail);
    assert ReadsValue(value, v, tail);
  }

  lemma SpaceBefore(s: string)
    ensures ReadValue(" " + s) == ReadValue(s)
  {
    SkipsAll(" ", s);
  }

  /** Members written after an opening brace, with no closing brace yet. */
  ghost predicate IsOpen(text: string, done: seq<(Key, Json)>) {
    if done == [] then text == ""
    else forall tail: string | Stops(tail) :: ReadsOpen(text, done, tail)
  }

  ghost predicate ReadsOpen(text: string, done: seq<(Key, Json)>, tail: string) {
    ReadObject(text + tail) == Prefixed(done, ReadTail(tail))
  }

  /** What stands before a member: `first` is the flag of the loop. */
  function Lead(first: bool): string {
    if first then "\n" else ",\n"
  }

  /** One turn of a loop: a member is added. */
  lemma OneMoreMember(text: string, done: seq<(Key, Json)>, indent: string, name: string, key: Key, value: string,
                      v: Json)
    requires IsOpen(text, done) && AllWhitespace(indent) && IsQuoted(name, key) && IsValue(value, v)
    ensures IsOpen(text + Lead(done == []) + (indent + MemberText(name, value)), done + [(key, v)])
  {
    var member := MemberText(name, value);
    var text' := text + Lead(done == []) + (indent + member);
    forall tail: string | Stops(tail) ensures ReadsOpen(text', done + [(key, v)], tail) {
      MemberReads("\n" + indent, name, key, value, v, tail);
      if done == [] {
        FirstMember(indent, member, tail);
        FirstText(indent, member, tail);
        assert done + [(key, v)] == [(key, v)];
      } else {
        assert ReadsOpen(text, done, "," + (("\n" + indent) + (member + tail)));
        NextMember(text, done, ("\n" + indent) + (member + tail), [(key, v)], tail);
        NextText(text, indent, member, tail);
      }
    }
  }

  lemma FirstText(indent: string, member: string, tail: string)
    ensures ("" + Lead(true) + (indent + member)) + tail == ("\n" + indent) + (member + tail)
  {
  }

  lemma NextText(text: string, indent: string, member: string, tail: string)
    ensures (text + Lead(false) + (indent + member)) + tail == text + ("," + (("\n" + indent) + (member + tail)))
  {
  }

  lemma NextMember(text: string, done: seq<(Key, Json)>, member: string, added: seq<(Key, Json)>, tail: string)
    requires ReadsOpen(text, done, "," + member)
    requires ReadMembers(member) == Prefixed(added, ReadTail(tail))
    ensures ReadObject(text + ("," + member)) == Prefixed(done + added, ReadTail(tail))
  {
    assert ("," + member)[1..] == member;
    PrefixedTwice(done, added, ReadTail(tail));
  }

  lemma FirstMember(indent: string, member: string, tail: string)
    requires AllWhitespace(indent) && member != "" && member[0] == '"'
    ensures ReadObject(("\n" + indent) + (member + tail)) == ReadMembers(("\n" + indent) + (member + tail))
  {
    SkipsAll("\n" + indent, member + tail);
    assert SkipWhitespace(member + tail) == member + tail;
  }

  lemma PrefixedTwice(a: seq<(Key, Json)>, b: seq<(Key, Json)>, r: Option<(seq<(Key, Json)>, string)>)
    ensures Prefixed(a, Prefixed(b, r)) == Prefixed(a + b, r)
  {
    if r.Some? {
      assert a + (b + r.value.0) == (a + b) + r.value.0;
    }
  }

  /** What closes an object. */
  function Closing(empty: bool, indent: string): string {
    (if empty then "" else "\n") + indent + "}"
  }

  lemma ClosedIsValue(text: string, done: seq<(Key, Json)>, indent: string)
    requires IsOpen(text, done) && AllWhitespace(indent)
    ensures IsValue("{" + text + Closing(done == [], indent), Object(done))
  {
    var closing := Closing(done == [], indent);
    var whole := "{" + text + closing;
    forall tail: string | Stops(tail) ensures ReadsValue(whole, Object(done), tail) {
      ClosedReads(text, done, indent, tail);
    }
  }

  /** A closed object reads as its members, whatever follows. */
  lemma ClosedReads(text: string, done: seq<(Key, Json)>, indent: string, more: string)
    requires IsOpen(text, done) && AllWhitespace(indent)
    ensures ReadValue("{" + text + Closing(done == [], indent) + more) == Some((Object(done), more))
  {
    var closing := Closing(done == [], indent);
    var ws := (if done == [] then "" else "\n") + indent;
    assert ("{" + text + closing + more)[1..] == text + (closing + more);
    assert closing + more == ws + ("}" + more) && ("}" + more)[1..] == more;
    SkipsAll(ws, "}" + more);
    if done == [] {
      assert text + (closing + more) == closing + more;
    } else {
      assert ReadsOpen(text, done, closing + more);
      assert done + [] == done;
    }
  }

  // ---- the nested map ----

  function NumberMembers(values: Entries<U64>): seq<(Key, Json)> {
    if values == [] then []
    else
      var (name, value) := values[|values| - 1];
      NumberMembers(values[..|values| - 1]) + [(name, Number(Numeral(value)))]
  }

  function ModuleMembers(modules: Entries<Entries<U64>>): seq<(Key, Json)> {
    if modules == [] then []
    else
      var (name, values) := modules[|modules| - 1];
      ModuleMembers(modules[..|modules| - 1]) + [(name, Object(NumberMembers(values)))]
  }

  /** The inner loop and the braces around it. */
  method ValuesJson(values: Entries<U64>) returns (out: string)
    ensures IsValue(out, Object(NumberMembers(values)))
  {
    out := "";
    var first, i := true, 0;
    while i < |values|
      invariant 0 <= i <= |values| && first == (i == 0)
      invariant IsOpen(out, NumberMembers(values[..i])) && |NumberMembers(values[..i])| == i
    {
      assert values[..i + 1][..i] == values[..i];
      var (name, value) := values[i];
      var quoted := Q(name);
      NumeralIsValue(value);
      OneMoreMember(out, NumberMembers(values[..i]), "    ", quoted, name, Numeral(value), Number(Numeral(value)));
      out := out + Lead(first) + ("    " + MemberText(quoted, Numeral(value)));
      first := false;
      i := i + 1;
    }
    assert values[..i] == values;
    ClosedIsValue(out, NumberMembers(values), "  ");
    out := "{" + out + Closing(values == [], "  ");
  }

  /** The text reads back as the map, entry by entry and in order. */
  method NestedJson(modules: Entries<Entries<U64>>) returns (text: string)
    ensures ReadText(text) == Some(Object(ModuleMembers(modules)))
    ensures AsModules(ReadText(text).value.members) == Some(modules)
  {
    ModulesComeBack(modules);
    var out := "";
    var first, i := true, 0;
    while i < |modules|
      invariant 0 <= i <= |modules| && first == (i == 0)
      invariant IsOpen(out, ModuleMembers(modules[..i])) && |ModuleMembers(modules[..i])| == i
    {
      assert modules[..i + 1][..i] == modules[..i];
      var (name, values) := modules[i];
      var quoted := Q(name);
      var inner := ValuesJson(values);
      OneMoreMember(out, ModuleMembers(modules[..i]), "  ", quoted, name, inner, Object(NumberMembers(values)));
      out := out + Lead(first) + ("  " + MemberText(quoted, inner));
      first := false;
      i := i + 1;
    }
    assert modules[..i] == modules;
    ClosedReads(out, ModuleMembers(modules), "", "");
    text := "{" + out + Closing(modules == [], "");
    assert text + "" == text;
  }

  // ---- reading the map out of the value ----

  ghost function AsNumber(j: Json): Option<nat> {
    if j.Number? && AllDigits(j.lexeme) then Some(ValueOf(j.lexeme)) else None
  }

  ghost function AsNumbers(members: seq<(Key, Json)>): Option<Entries<nat>> {
    if members == [] then Some([])
    else
      var (name, j) := members[|members| - 1];
      match (AsNumbers(members[..|members| - 1]), AsNumber(j))
      case (Some(entries), Some(n)) => Some(entries + [(name, n)])
      case _ => None
  }

  ghost function AsModules(members: seq<(Key, Json)>): Option<Entries<Entries<nat>>> {
    if members == [] then Some([])
    else
      var (name, j) := members[|members| - 1];
      if !j.Object? then None
      else
        match (AsModules(members[..|members| - 1]), AsNumbers(j.members))
        case (Some(entries), Some(numbers)) => Some(entries + [(name, numbers)])
        case _ => None
  }

  lemma {:induction false} NumbersComeBack(values: Entries<U64>)
    ensures AsNumbers(NumberMembers(values)) == Some(values)
    decreases |values|
  {
    if values != [] {
      var init := values[..|values| - 1];
      var (name, value) := values[|values| - 1];
      NumbersComeBack(init);
      NumeralValue(value);
      var members := NumberMembers(values);
      assert members[..|members| - 1] == NumberMembers(init);
      assert init + [(name, value)] == values;
    }
  }

  /** The members that the text reads as are the map: with `NestedJson`, a round trip. */
  lemma {:induction false} ModulesComeBack(modules: Entries<Entries<U64>>)
    ensures AsModules(ModuleMembers(modules)) == Some(modules)
    decreases |modules|
  {
    if modules != [] {
      var init := modules[..|modules| - 1];
      var (name, values) := modules[|modules| - 1];
      ModulesComeBack(init);
      NumbersComeBack(values);
      var members := ModuleMembers(modules);
      assert members[..|members| - 1] == ModuleMembers(init);
      assert init + [(name, values)] == modules;
    }
  }
}
