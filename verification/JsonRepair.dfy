/** repairCommonJson (src/llm-client.ts:81-167) on every JSON text, strict or loose.

    Json is the concrete syntax of RFC 8259, sections 2 to 7 (whitespace and escapes are kept, scalars
    are any run of ordinary characters, which covers numbers and the three literal names), extended with
    the four defects the repairer knows: a raw quote, newline, carriage return or tab inside a string,
    and a trailing comma before a closing bracket. Loose() renders a text with its defects, Strict() the
    text it stands for. */
module JsonRepair {
  import opened Common

  // ---------------------------------------------------------------- the repairer

  function NextVisible(text: string): Option<char> {
    if text == [] then None
    else if IsSpace(text[0]) then NextVisible(text[1..])
    else Some(text[0])
  }

  // What may follow the quote that ends a string.
  predicate EndsString(next: Option<char>) {
    next.None? || next.value in ",}]:"
  }

  predicate Closes(next: Option<char>) {
    next == Some('}') || next == Some(']')
  }

  datatype Mode = Outside | InString | Escaped

  // Output for one character, and the mode after it.
  function Emit(mode: Mode, c: char, rest: string): (string, Mode) {
    match mode
    case Escaped => ([c], InString)
    case InString =>
      if c == '\\' then ([c], Escaped)
      else if c == '"' then
        if EndsString(NextVisible(rest)) then ([c], Outside) else ("\\\"", InString)
      else if c == '\n' then ("\\n", InString)
      else if c == '\r' then ("\\r", InString)
      else if c == '\t' then ("\\t", InString)
      else ([c], InString)
    case Outside =>
      if c == '"' then ([c], InString)
      else if c == ',' && Closes(NextVisible(rest)) then ("", Outside)
      else ([c], Outside)
  }

  function Repair(text: string, mode: Mode): string {
    if text == [] then ""
    else
      var (out, next) := Emit(mode, text[0], text[1..]);
      out + Repair(text[1..], next)
  }

  function ModeOf(inString: bool, escaped: bool): Mode {
    if escaped then Escaped else if inString then InString else Outside
  }

  method NextNonWhitespaceChar(text: string, start: nat) returns (r: Option<char>)
    requires start <= |text|
    ensures r == NextVisible(text[start..])
  {
    var i := start;
    while i < |text|
      invariant start <= i <= |text|
      invariant NextVisible(text[start..]) == NextVisible(text[i..])
    {
      assert text[i..][1..] == text[i + 1..];
      if !IsSpace(text[i]) { return Some(text[i]); }
      i := i + 1;
    }
    return None;
  }

  lemma Assoc(a: string, b: string, c: string)
    ensures (a + b) + c == a + (b + c)
  {
  }

  // The character loop, with the source's three variables.
  method RepairCommonJson(text: string) returns (result: string)
    ensures result == Repair(text, Outside)
  {
    result := "";
    var inString, escaped := false, false;
    for i := 0 to |text|
      invariant result + Repair(text[i..], ModeOf(inString, escaped)) == Repair(text, Outside)
      invariant escaped ==> inString
    {
      var ch := text[i];
      assert text[i..][1..] == text[i + 1..];
      ghost var done := result;
      ghost var step := Emit(ModeOf(inString, escaped), ch, text[i + 1..]);
      assert Repair(text[i..], ModeOf(inString, escaped)) == step.0 + Repair(text[i + 1..], step.1);
      if escaped {
        result := result + [ch];
        escaped := false;
      } else if inString {
        if ch == '\\' {
          result := result + [ch];
          escaped := true;
        } else if ch == '"' {
          var next := NextNonWhitespaceChar(text, i + 1);
          if next.None? || next.value == ',' || next.value == '}' || next.value == ']' || next.value == ':' {
            result := result + [ch];
            inString := false;
          } else {
            result := result + "\\\"";
          }
        } else if ch == '\n' {
          result := result + "\\n";
        } else if ch == '\r' {
          result := result + "\\r";
        } else if ch == '\t' {
          result := result + "\\t";
        } else {
          result := result + [ch];
        }
      } else if ch == '"' {
        result := result + [ch];
        inString := true;
      } else {
        var drop := false;
        if ch == ',' {
          var next := NextNonWhitespaceChar(text, i + 1);
          drop := next == Some('}') || next == Some(']');
        }
        if !drop { result := result + [ch]; }
      }
      assert result == done + step.0;
      assert ModeOf(inString, escaped) == step.1;
      Assoc(done, step.0, Repair(text[i + 1..], step.1));
    }
  }

  // ---------------------------------------------------------------- JSON texts

  datatype Item =
    | Plain(c: char)       // any character a string may hold unescaped
    | Escape(c: char)      // a backslash and the character after it
    | RawQuote | RawNewline | RawReturn | RawTab

  datatype Json =
    | Scalar(text: string)
    | Text(items: seq<Item>)
    | Array(elems: Elements)
    | Object(members: Members)

  // The inside of an array: white space around every value; the last value may carry a trailing comma.
  datatype Elements =
    | NoElements(ws: string)
    | LastElement(before: string, value: Json, after: string, trailing: Option<string>)
    | MoreElements(before: string, value: Json, after: string, rest: Elements)

  datatype Members =
    | NoMembers(ws: string)
    | LastMember(m: Member, trailing: Option<string>)
    | MoreMembers(m: Member, rest: Members)

  // ws key ws : ws value ws
  datatype Member = Member(before: string, key: seq<Item>, colon: string, gap: string, value: Json, after: string)

  predicate Blank(ws: string) {
    forall c :: c in ws ==> c in " \t\n\r"
  }

  predicate ScalarOk(text: string) {
    text != "" && forall c :: c in text ==> c !in "\",:[]{}\\" && !IsSpace(c)
  }

  predicate ItemOk(i: Item) {
    match i
    case Plain(c) => c !in "\"\\\n\r\t"
    case _ => true
  }

  predicate Ok(j: Json) {
    match j
    case Scalar(text) => ScalarOk(text)
    case Text(items) => forall i :: i in items ==> ItemOk(i)
    case Array(elems) => ElementsOk(elems)
    case Object(members) => MembersOk(members)
  }

  predicate ElementsOk(e: Elements) {
    match e
    case NoElements(ws) => Blank(ws)
    case LastElement(before, value, after, trailing) =>
      Blank(before) && Ok(value) && Blank(after) && (trailing.Some? ==> Blank(trailing.value))
    case MoreElements(before, value, after, rest) =>
      Blank(before) && Ok(value) && Blank(after) && ElementsOk(rest) && !rest.NoElements?
  }

  predicate MembersOk(ms: Members) {
    match ms
    case NoMembers(ws) => Blank(ws)
    case LastMember(m, trailing) => MemberOk(m) && (trailing.Some? ==> Blank(trailing.value))
    case MoreMembers(m, rest) => MemberOk(m) && MembersOk(rest) && !rest.NoMembers?
  }

  predicate MemberOk(m: Member) {
    && Blank(m.before) && (forall i :: i in m.key ==> ItemOk(i)) && Blank(m.colon)
    && Blank(m.gap) && Ok(m.value) && Blank(m.after)
  }

  // ---------------------------------------------------------------- rendering

  function ItemText(i: Item): string {
    match i
    case Plain(c) => [c]
    case Escape(c) => ['\\', c]
    case RawQuote => "\""
    case RawNewline => "\n"
    case RawReturn => "\r"
    case RawTab => "\t"
  }

  // Each Show function renders its argument followed by the given tail.
  function ShowItems(items: seq<Item>, tail: string): string {
    if items == [] then tail else ItemText(items[0]) + ShowItems(items[1..], tail)
  }

  function ShowString(items: seq<Item>, tail: string): string {
    ['"'] + ShowItems(items, ['"'] + tail)
  }

  function Show(j: Json, tail: string): string {
    match j
    case Scalar(text) => text + tail
    case Text(items) => ShowString(items, tail)
    case Array(elems) => ['['] + ShowElements(elems, [']'] + tail)
    case Object(members) => ['{'] + ShowMembers(members, ['}'] + tail)
  }

  function ShowTrailing(trailing: Option<string>, tail: string): string {
    match trailing
    case None => tail
    case Some(ws) => [','] + (ws + tail)
  }

  function ShowElements(e: Elements, tail: string): string {
    match e
    case NoElements(ws) => ws + tail
    case LastElement(before, value, after, trailing) =>
      before + Show(value, after + ShowTrailing(trailing, tail))
    case MoreElements(before, value, after, rest) =>
      before + Show(value, after + ([','] + ShowElements(rest, tail)))
  }

  function ShowMembers(ms: Members, tail: string): string {
    match ms
    case NoMembers(ws) => ws + tail
    case LastMember(m, trailing) => ShowMember(m, ShowTrailing(trailing, tail))
    case MoreMembers(m, rest) => ShowMember(m, [','] + ShowMembers(rest, tail))
  }

  function ShowMember(m: Member, tail: string): string {
    m.before + ShowString(m.key, m.colon + ([':'] + (m.gap + Show(m.value, m.after + tail))))
  }

  // ---------------------------------------------------------------- the strict text meant

  function FixItem(i: Item): Item {
    match i
    case RawQuote => Escape('"')
    case RawNewline => Escape('n')
    case RawReturn => Escape('r')
    case RawTab => Escape('t')
    case _ => i
  }

  function FixItems(items: seq<Item>): seq<Item> {
    if items == [] then [] else [FixItem(items[0])] + FixItems(items[1..])
  }

  // Every raw character becomes its escape; every trailing comma goes, its white space stays.
  function Fix(j: Json): Json {
    match j
    case Scalar(_) => j
    case Text(items) => Text(FixItems(items))
    case Array(elems) => Array(FixElements(elems))
    case Object(members) => Object(FixMembers(members))
  }

  function Kept(trailing: Option<string>): string {
    if trailing.Some? then trailing.value else ""
  }

  function FixElements(e: Elements): Elements {
    match e
    case NoElements(_) => e
    case LastElement(before, value, after, trailing) =>
      LastElement(before, Fix(value), after + Kept(trailing), None)
    case MoreElements(before, value, after, rest) => MoreElements(before, Fix(value), after, FixElements(rest))
  }

  function FixMembers(ms: Members): Members {
    match ms
    case NoMembers(_) => ms
    case LastMember(m, trailing) =>
      var f := FixMember(m);
      LastMember(f.(after := m.after + Kept(trailing)), None)
    case MoreMembers(m, rest) => MoreMembers(FixMember(m), FixMembers(rest))
  }

  function FixMember(m: Member): Member {
    m.(key := FixItems(m.key), value := Fix(m.value))
  }

  // ---------------------------------------------------------------- when raw quotes can be told apart

  // A raw quote is recognised iff the next visible character of its string is not one that could
  // follow a closing quote.
  predicate QuotesOk(items: seq<Item>) {
    items == [] ||
    ((items[0].RawQuote? ==> !EndsString(NextVisible(ShowItems(items[1..], "\""))))
     && QuotesOk(items[1..]))
  }

  predicate Clear(j: Json) {
    match j
    case Scalar(_) => true
    case Text(items) => QuotesOk(items)
    case Array(elems) => ClearElements(elems)
    case Object(members) => ClearMembers(members)
  }

  predicate ClearElements(e: Elements) {
    match e
    case NoElements(_) => true
    case LastElement(_, value, _, _) => Clear(value)
    case MoreElements(_, value, _, rest) => Clear(value) && ClearElements(rest)
  }

  predicate ClearMembers(ms: Members) {
    match ms
    case NoMembers(_) => true
    case LastMember(m, _) => ClearMember(m)
    case MoreMembers(m, rest) => ClearMember(m) && ClearMembers(rest)
  }

  predicate ClearMember(m: Member) {
    QuotesOk(m.key) && Clear(m.value)
  }

  // ---------------------------------------------------------------- looking ahead

  lemma {:induction false} SkipBlank(ws: string, tail: string)
    requires Blank(ws)
    ensures NextVisible(ws + tail) == NextVisible(tail)
  {
    if ws == [] {
      assert ws + tail == tail;
    } else {
      assert ws[0] in ws;
      SkipBlank(ws[1..], tail);
      assert (ws + tail)[1..] == ws[1..] + tail;
    }
  }

  // Text with neither quotes nor commas passes through unchanged.
  lemma {:induction false} Pass(text: string, tail: string)
    requires forall c :: c in text ==> c != '"' && c != ','
    ensures Repair(text + tail, Outside) == text + Repair(tail, Outside)
  {
    if text == [] {
      assert text + tail == tail;
    } else {
      assert text[0] in text && forall c :: c in text[1..] ==> c in text;
      Pass(text[1..], tail);
      assert (text + tail)[1..] == text[1..] + tail;
      assert Repair(text + tail, Outside) == [text[0]] + (text[1..] + Repair(tail, Outside));
    }
  }

  // A value never starts with a closing bracket, nor does a nonempty list of them.
  lemma ValueOpens(j: Json, tail: string)
    requires Ok(j)
    ensures NextVisible(Show(j, tail)).Some? && !Closes(NextVisible(Show(j, tail)))
  {
    match j
    case Scalar(text) => assert text[0] in text; assert (text + tail)[0] == text[0];
    case Text(_) =>
    case Array(_) =>
    case Object(_) =>
  }

  lemma ElementsOpen(e: Elements, tail: string)
    requires ElementsOk(e) && !e.NoElements?
    ensures !Closes(NextVisible(ShowElements(e, tail)))
  {
    var after := if e.LastElement? then e.after + ShowTrailing(e.trailing, tail)
                 else e.after + ([','] + ShowElements(e.rest, tail));
    ValueOpens(e.value, after);
    SkipBlank(e.before, Show(e.value, after));
  }

  lemma MembersOpen(ms: Members, tail: string)
    requires MembersOk(ms) && !ms.NoMembers?
    ensures !Closes(NextVisible(ShowMembers(ms, tail)))
  {
    var m := ms.m;
    var after := if ms.LastMember? then ShowTrailing(ms.trailing, tail)
                 else [','] + ShowMembers(ms.rest, tail);
    SkipBlank(m.before, ShowString(m.key, m.colon + ([':'] + (m.gap + Show(m.value, m.after + after)))));
  }

  // After a value comes white space and then a comma or a closing bracket.
  lemma TrailingEnds(trailing: Option<string>, after: string, close: char, tail: string)
    requires Blank(after) && (trailing.Some? ==> Blank(trailing.value)) && close in "]}"
    ensures EndsString(NextVisible(after + ShowTrailing(trailing, [close] + tail)))
  {
    SkipBlank(after, ShowTrailing(trailing, [close] + tail));
  }

  lemma RepairDroppedComma(ws: string, tail: string)
    requires Blank(ws) && Closes(NextVisible(tail))
    ensures Repair([','] + (ws + tail), Outside) == ws + Repair(tail, Outside)
  {
    SkipBlank(ws, tail);
    Pass(ws, tail);
    assert ([','] + (ws + tail))[1..] == ws + tail;
  }

  lemma RepairTrailing(after: string, trailing: Option<string>, close: char, tail: string)
    requires Blank(after) && Blank(Kept(trailing)) && close in "]}"
    ensures Repair(after + ShowTrailing(trailing, [close] + tail), Outside)
      == (after + Kept(trailing)) + ([close] + Repair(tail, Outside))
  {
    var end := [close] + tail;
    Pass(after, ShowTrailing(trailing, end));
    Pass([close], tail);
    if trailing.Some? {
      RepairDroppedComma(trailing.value, end);
    }
    Assoc(after, Kept(trailing), [close] + Repair(tail, Outside));
  }

  lemma RepairSeparator(after: string, tail: string)
    requires Blank(after) && !Closes(NextVisible(tail))
    ensures EndsString(NextVisible(after + ([','] + tail)))
    ensures Repair(after + ([','] + tail), Outside) == after + ([','] + Repair(tail, Outside))
  {
    SkipBlank(after, [','] + tail);
    Pass(after, [','] + tail);
    assert ([','] + tail)[1..] == tail;
  }

  // ---------------------------------------------------------------- repairing a clear text

  lemma {:induction false} VisibleAppend(text: string, tail: string)
    requires NextVisible(text).Some?
    ensures NextVisible(text + tail) == NextVisible(text)
  {
    assert (text + tail)[0] == text[0] && (text + tail)[1..] == text[1..] + tail;
    if IsSpace(text[0]) { VisibleAppend(text[1..], tail); }
  }

  // Inside a string the lookahead never passes the closing quote.
  lemma {:induction false} QuoteLookahead(items: seq<Item>, tail: string)
    ensures NextVisible(ShowItems(items, ['"'] + tail)) == NextVisible(ShowItems(items, "\""))
  {
    if items == [] {
      assert ['"'] + tail == "\"" + tail;
    } else {
      var text := ItemText(items[0]);
      QuoteLookahead(items[1..], tail);
      var long, short := ShowItems(items[1..], ['"'] + tail), ShowItems(items[1..], "\"");
      assert (text + long)[0] == text[0] == (text + short)[0];
      if |text| == 1 {
        assert (text + long)[1..] == long && (text + short)[1..] == short;
      }
    }
  }

  lemma RepairStep(c: char, rest: string, mode: Mode)
    ensures Repair([c] + rest, mode) == Emit(mode, c, rest).0 + Repair(rest, Emit(mode, c, rest).1)
  {
    assert ([c] + rest)[1..] == rest;
  }

  lemma EscapeStep(c: char, rest: string)
    ensures Repair(['\\', c] + rest, InString) == ['\\', c] + Repair(rest, InString)
  {
    RepairStep('\\', [c] + rest, InString);
    RepairStep(c, rest, Escaped);
    assert ['\\'] + ([c] + rest) == ['\\', c] + rest;
    assert ['\\'] + ([c] + Repair(rest, InString)) == ['\\', c] + Repair(rest, InString);
  }

  lemma RepairItem(i: Item, tail: string)
    requires ItemOk(i)
    requires i.RawQuote? ==> !EndsString(NextVisible(tail))
    ensures Repair(ItemText(i) + tail, InString) == ItemText(FixItem(i)) + Repair(tail, InString)
  {
    if i.Escape? {
      EscapeStep(i.c, tail);
    } else {
      RepairStep(ItemText(i)[0], tail, InString);
    }
  }

  lemma {:induction false} RepairItems(items: seq<Item>, tail: string)
    requires forall i :: i in items ==> ItemOk(i)
    requires QuotesOk(items) && EndsString(NextVisible(tail))
    ensures Repair(ShowItems(items, ['"'] + tail), InString)
      == ShowItems(FixItems(items), ['"'] + Repair(tail, Outside))
  {
    if items == [] {
      assert (['"'] + tail)[1..] == tail;
    } else {
      QuoteLookahead(items[1..], tail);
      RepairItem(items[0], ShowItems(items[1..], ['"'] + tail));
      RepairItems(items[1..], tail);
    }
  }

  lemma RepairString(items: seq<Item>, tail: string)
    requires forall i :: i in items ==> ItemOk(i)
    requires QuotesOk(items) && EndsString(NextVisible(tail))
    ensures Repair(ShowString(items, tail), Outside) == ShowString(FixItems(items), Repair(tail, Outside))
  {
    RepairItems(items, tail);
    var text := ShowItems(items, ['"'] + tail);
    assert (['"'] + text)[1..] == text;
  }

  lemma {:induction false} RepairValue(j: Json, tail: string)
    requires Ok(j) && Clear(j) && EndsString(NextVisible(tail))
    ensures Repair(Show(j, tail), Outside) == Show(Fix(j), Repair(tail, Outside))
    decreases j, 0
  {
    match j
    case Scalar(text) => Pass(text, tail);
    case Text(items) => RepairString(items, tail);
    case Array(elems) =>
      RepairElements(elems, tail);
      Pass(['['], ShowElements(elems, [']'] + tail));
    case Object(members) =>
      RepairMembers(members, tail);
      Pass(['{'], ShowMembers(members, ['}'] + tail));
  }

  lemma {:induction false} RepairElements(e: Elements, tail: string)
    requires ElementsOk(e) && ClearElements(e)
    ensures Repair(ShowElements(e, [']'] + tail), Outside)
      == ShowElements(FixElements(e), [']'] + Repair(tail, Outside))
    decreases e, 1
  {
    match e
    case NoElements(ws) =>
      Pass(ws, [']'] + tail);
      Pass([']'], tail);
    case LastElement(before, value, after, trailing) =>
      var rest := ShowTrailing(trailing, [']'] + tail);
      TrailingEnds(trailing, after, ']', tail);
      RepairTrailing(after, trailing, ']', tail);
      RepairValue(value, after + rest);
      Pass(before, Show(value, after + rest));
    case MoreElements(before, value, after, more) =>
      var rest := ShowElements(more, [']'] + tail);
      ElementsOpen(more, [']'] + tail);
      RepairSeparator(after, rest);
      RepairElements(more, tail);
      RepairValue(value, after + ([','] + rest));
      Pass(before, Show(value, after + ([','] + rest)));
  }

  lemma RepairColon(m: Member, value: string)
    requires MemberOk(m)
    ensures var rest := m.colon + ([':'] + (m.gap + value));
      && EndsString(NextVisible(rest))
      && Repair(rest, Outside) == m.colon + ([':'] + (m.gap + Repair(value, Outside)))
  {
    Pass(m.gap, value);
    Pass([':'], m.gap + value);
    SkipBlank(m.colon, [':'] + (m.gap + value));
    Pass(m.colon, [':'] + (m.gap + value));
  }

  // A member is repaired in place, once its closing white space and what follows are.
  lemma {:induction false} RepairMember(m: Member, tail: string, after: string, tail': string)
    requires MemberOk(m) && ClearMember(m)
    requires EndsString(NextVisible(m.after + tail))
    requires Repair(m.after + tail, Outside) == after + tail'
    ensures Repair(ShowMember(m, tail), Outside) == ShowMember(FixMember(m).(after := after), tail')
    decreases m, 0
  {
    RepairValue(m.value, m.after + tail);
    var value := Show(m.value, m.after + tail);
    RepairColon(m, value);
    var rest := m.colon + ([':'] + (m.gap + value));
    RepairString(m.key, rest);
    Pass(m.before, ShowString(m.key, rest));
  }

  lemma {:induction false} RepairMembers(ms: Members, tail: string)
    requires MembersOk(ms) && ClearMembers(ms)
    ensures Repair(ShowMembers(ms, ['}'] + tail), Outside)
      == ShowMembers(FixMembers(ms), ['}'] + Repair(tail, Outside))
    decreases ms, 1
  {
    match ms
    case NoMembers(ws) =>
      Pass(ws, ['}'] + tail);
      Pass(['}'], tail);
    case LastMember(m, trailing) =>
      TrailingEnds(trailing, m.after, '}', tail);
      RepairTrailing(m.after, trailing, '}', tail);
      RepairMember(m, ShowTrailing(trailing, ['}'] + tail), m.after + Kept(trailing), ['}'] + Repair(tail, Outside));
    case MoreMembers(m, more) =>
      RepairMembers(more, tail);
      var rest := ShowMembers(more, ['}'] + tail);
      MembersOpen(more, ['}'] + tail);
      RepairSeparator(m.after, rest);
      RepairMember(m, [','] + rest, m.after, [','] + Repair(rest, Outside));
  }

  // ---------------------------------------------------------------- a raw quote that cannot be told apart

  // The two texts differ at a position both have.
  ghost predicate Apart(a: string, b: string) {
    exists i :: 0 <= i < |a| && i < |b| && a[i] != b[i]
  }

  lemma ApartAfter(prefix: string, a: string, b: string)
    requires Apart(a, b)
    ensures Apart(prefix + a, prefix + b)
  {
    var i :| 0 <= i < |a| && i < |b| && a[i] != b[i];
    assert (prefix + a)[|prefix| + i] != (prefix + b)[|prefix| + i];
  }

  lemma {:induction false} ApartItems(items: seq<Item>, a: string, b: string)
    requires Apart(a, b)
    ensures Apart(ShowItems(items, a), ShowItems(items, b))
  {
    if items != [] {
      ApartItems(items[1..], a, b);
      ApartAfter(ItemText(items[0]), ShowItems(items[1..], a), ShowItems(items[1..], b));
    }
  }

  lemma ApartString(items: seq<Item>, a: string, b: string)
    requires Apart(a, b)
    ensures Apart(ShowString(items, a), ShowString(items, b))
  {
    ApartAfter(['"'], a, b);
    ApartItems(items, ['"'] + a, ['"'] + b);
    ApartAfter(['"'], ShowItems(items, ['"'] + a), ShowItems(items, ['"'] + b));
  }

  lemma {:induction false} ApartValue(j: Json, a: string, b: string)
    requires Apart(a, b)
    ensures Apart(Show(j, a), Show(j, b))
    decreases j, 0
  {
    match j
    case Scalar(text) => ApartAfter(text, a, b);
    case Text(items) => ApartString(items, a, b);
    case Array(elems) =>
      ApartAfter([']'], a, b);
      ApartElements(elems, [']'] + a, [']'] + b);
      ApartAfter(['['], ShowElements(elems, [']'] + a), ShowElements(elems, [']'] + b));
    case Object(members) =>
      ApartAfter(['}'], a, b);
      ApartMembers(members, ['}'] + a, ['}'] + b);
      ApartAfter(['{'], ShowMembers(members, ['}'] + a), ShowMembers(members, ['}'] + b));
  }

  lemma ApartTrailing(trailing: Option<string>, a: string, b: string)
    requires Apart(a, b)
    ensures Apart(ShowTrailing(trailing, a), ShowTrailing(trailing, b))
  {
    if trailing.Some? {
      ApartAfter(trailing.value, a, b);
      ApartAfter([','], trailing.value + a, trailing.value + b);
    }
  }

  lemma {:induction false} ApartElements(e: Elements, a: string, b: string)
    requires Apart(a, b)
    ensures Apart(ShowElements(e, a), ShowElements(e, b))
    decreases e, 1
  {
    if e.NoElements? {
      ApartAfter(e.ws, a, b);
    } else {
      var a', b' := ShowTrailing(None, a), ShowTrailing(None, b);
      if e.LastElement? {
        ApartTrailing(e.trailing, a, b);
        a', b' := ShowTrailing(e.trailing, a), ShowTrailing(e.trailing, b);
      } else {
        ApartElements(e.rest, a, b);
        ApartAfter([','], ShowElements(e.rest, a), ShowElements(e.rest, b));
        a', b' := [','] + ShowElements(e.rest, a), [','] + ShowElements(e.rest, b);
      }
      ApartAfter(e.after, a', b');
      ApartValue(e.value, e.after + a', e.after + b');
      ApartAfter(e.before, Show(e.value, e.after + a'), Show(e.value, e.after + b'));
    }
  }

  lemma {:induction false} ApartMembers(ms: Members, a: string, b: string)
    requires Apart(a, b)
    ensures Apart(ShowMembers(ms, a), ShowMembers(ms, b))
    decreases ms, 1
  {
    match ms
    case NoMembers(ws) => ApartAfter(ws, a, b);
    case LastMember(m, trailing) =>
      ApartTrailing(trailing, a, b);
      ApartMember(m, ShowTrailing(trailing, a), ShowTrailing(trailing, b));
    case MoreMembers(m, rest) =>
      ApartMembers(rest, a, b);
      ApartAfter([','], ShowMembers(rest, a), ShowMembers(rest, b));
      ApartMember(m, [','] + ShowMembers(rest, a), [','] + ShowMembers(rest, b));
  }

  // From the value back to the start of the member.
  lemma ApartColon(m: Member, a: string, b: string)
    requires Apart(a, b)
    ensures Apart(m.before + ShowString(m.key, m.colon + ([':'] + (m.gap + a))),
                  m.before + ShowString(m.key, m.colon + ([':'] + (m.gap + b))))
  {
    ApartAfter(m.gap, a, b);
    ApartAfter([':'], m.gap + a, m.gap + b);
    var a', b' := m.colon + ([':'] + (m.gap + a)), m.colon + ([':'] + (m.gap + b));
    ApartAfter(m.colon, [':'] + (m.gap + a), [':'] + (m.gap + b));
    ApartString(m.key, a', b');
    ApartAfter(m.before, ShowString(m.key, a'), ShowString(m.key, b'));
  }

  lemma {:induction false} ApartMember(m: Member, a: string, b: string)
    requires Apart(a, b)
    ensures Apart(ShowMember(m, a), ShowMember(m, b))
    decreases m, 0
  {
    ApartAfter(m.after, a, b);
    ApartValue(m.value, m.after + a, m.after + b);
    ApartColon(m, Show(m.value, m.after + a), Show(m.value, m.after + b));
  }

  // The first unrecognised raw quote closes the string: from there on the texts differ, whatever follows.
  lemma {:induction false} BreakItems(items: seq<Item>, tail: string, tail': string)
    requires (forall i :: i in items ==> ItemOk(i)) && !QuotesOk(items)
    ensures Apart(Repair(ShowItems(items, ['"'] + tail), InString), ShowItems(FixItems(items), tail'))
  {
    var rest := ShowItems(items[1..], ['"'] + tail);
    var more := ShowItems(FixItems(items[1..]), tail');
    QuoteLookahead(items[1..], tail);
    assert FixItems(items)[0] == FixItem(items[0]) && FixItems(items)[1..] == FixItems(items[1..]);
    if items[0].RawQuote? && EndsString(NextVisible(rest)) {
      assert (['"'] + rest)[1..] == rest;
      assert Repair(['"'] + rest, InString)[0] == '"' && ("\\\"" + more)[0] == '\\';
    } else {
      RepairItem(items[0], rest);
      BreakItems(items[1..], tail, tail');
      ApartAfter(ItemText(FixItem(items[0])), Repair(rest, InString), more);
    }
  }

  lemma BreakString(items: seq<Item>, tail: string, tail': string)
    requires (forall i :: i in items ==> ItemOk(i)) && !QuotesOk(items)
    ensures Apart(Repair(ShowString(items, tail), Outside), ShowString(FixItems(items), tail'))
  {
    var text := ShowItems(items, ['"'] + tail);
    BreakItems(items, tail, ['"'] + tail');
    assert (['"'] + text)[1..] == text;
    ApartAfter(['"'], Repair(text, InString), ShowItems(FixItems(items), ['"'] + tail'));
  }

  lemma {:induction false} BreakValue(j: Json, tail: string, tail': string)
    requires Ok(j) && !Clear(j)
    ensures Apart(Repair(Show(j, tail), Outside), Show(Fix(j), tail'))
    decreases j, 0
  {
    match j
    case Text(items) => BreakString(items, tail, tail');
    case Array(elems) =>
      var text, text' := ShowElements(elems, [']'] + tail), ShowElements(FixElements(elems), [']'] + tail');
      BreakElements(elems, tail, [']'] + tail');
      Pass(['['], text);
      ApartAfter(['['], Repair(text, Outside), text');
    case Object(members) =>
      var text, text' := ShowMembers(members, ['}'] + tail), ShowMembers(FixMembers(members), ['}'] + tail');
      BreakMembers(members, tail, ['}'] + tail');
      Pass(['{'], text);
      ApartAfter(['{'], Repair(text, Outside), text');
  }

  lemma {:induction false} BreakElements(e: Elements, tail: string, tail': string)
    requires ElementsOk(e) && !ClearElements(e)
    ensures Apart(Repair(ShowElements(e, [']'] + tail), Outside), ShowElements(FixElements(e), tail'))
    decreases e, 1
  {
    var next := if e.LastElement? then ShowTrailing(e.trailing, [']'] + tail)
                else [','] + ShowElements(e.rest, [']'] + tail);
    var next' := if e.LastElement? then (e.after + Kept(e.trailing)) + tail'
                 else e.after + ([','] + ShowElements(FixElements(e.rest), tail'));
    Pass(e.before, Show(e.value, e.after + next));
    if !Clear(e.value) {
      BreakValue(e.value, e.after + next, next');
    } else {
      var rest := ShowElements(e.rest, [']'] + tail);
      ElementsOpen(e.rest, [']'] + tail);
      RepairSeparator(e.after, rest);
      RepairValue(e.value, e.after + next);
      BreakElements(e.rest, tail, tail');
      ApartAfter([','], Repair(rest, Outside), ShowElements(FixElements(e.rest), tail'));
      ApartAfter(e.after, [','] + Repair(rest, Outside), [','] + ShowElements(FixElements(e.rest), tail'));
      ApartValue(Fix(e.value), e.after + ([','] + Repair(rest, Outside)), next');
    }
    ApartAfter(e.before, Repair(Show(e.value, e.after + next), Outside), Show(Fix(e.value), next'));
  }

  lemma {:induction false} BreakMember(m: Member, after: string, tail: string, tail': string)
    requires MemberOk(m) && !ClearMember(m)
    ensures Apart(Repair(ShowMember(m, tail), Outside), ShowMember(FixMember(m).(after := after), tail'))
    decreases m, 0
  {
    var value, value' := Show(m.value, m.after + tail), Show(Fix(m.value), after + tail');
    var rest, rest' := m.colon + ([':'] + (m.gap + value)), m.colon + ([':'] + (m.gap + value'));
    Pass(m.before, ShowString(m.key, rest));
    if !QuotesOk(m.key) {
      BreakString(m.key, rest, rest');
      ApartAfter(m.before, Repair(ShowString(m.key, rest), Outside), ShowString(FixItems(m.key), rest'));
    } else {
      RepairColon(m, value);
      RepairString(m.key, rest);
      BreakValue(m.value, m.after + tail, after + tail');
      ApartColon(m.(key := FixItems(m.key)), Repair(value, Outside), value');
    }
  }

  lemma {:induction false} BreakMembers(ms: Members, tail: string, tail': string)
    requires MembersOk(ms) && !ClearMembers(ms)
    ensures Apart(Repair(ShowMembers(ms, ['}'] + tail), Outside), ShowMembers(FixMembers(ms), tail'))
    decreases ms, 1
  {
    match ms
    case LastMember(m, trailing) =>
      BreakMember(m, m.after + Kept(trailing), ShowTrailing(trailing, ['}'] + tail), tail');
    case MoreMembers(m, more) =>
      var rest, rest' := ShowMembers(more, ['}'] + tail), ShowMembers(FixMembers(more), tail');
      if !ClearMember(m) {
        BreakMember(m, m.after, [','] + rest, [','] + rest');
      } else {
        MembersOpen(more, ['}'] + tail);
        RepairSeparator(m.after, rest);
        RepairMember(m, [','] + rest, m.after, [','] + Repair(rest, Outside));
        BreakMembers(more, tail, tail');
        ApartAfter([','], Repair(rest, Outside), rest');
        ApartMember(FixMember(m), [','] + Repair(rest, Outside), [','] + rest');
      }
  }

  // ---------------------------------------------------------------- whole texts

  // JSON-text = ws value ws
  datatype Document = Document(before: string, value: Json, after: string)

  predicate DocumentOk(d: Document) {
    Blank(d.before) && Ok(d.value) && Blank(d.after)
  }

  function Written(d: Document): string {
    d.before + Show(d.value, d.after)
  }

  function Meant(d: Document): Document {
    d.(value := Fix(d.value))
  }

  // Repair turns a loose text into the strict text it stands for exactly when every raw quote can be
  // told from a closing one; raw newlines, returns, tabs and single trailing commas never hurt.
  lemma RepairsExactlyClearTexts(d: Document)
    requires DocumentOk(d)
    ensures Repair(Written(d), Outside) == Written(Meant(d)) <==> Clear(d.value)
  {
    Pass(d.before, Show(d.value, d.after));
    if Clear(d.value) {
      SkipBlank(d.after, "");
      Pass(d.after, "");
      assert d.after + "" == d.after;
      RepairValue(d.value, d.after);
    } else {
      BreakValue(d.value, d.after, d.after);
      ApartAfter(d.before, Repair(Show(d.value, d.after), Outside), Show(Fix(d.value), d.after));
    }
  }

  // ---------------------------------------------------------------- strict texts

  predicate StrictItems(items: seq<Item>) {
    forall i :: i in items ==> i.Plain? || i.Escape?
  }

  predicate IsStrict(j: Json) {
    match j
    case Scalar(_) => true
    case Text(items) => StrictItems(items)
    case Array(elems) => StrictElements(elems)
    case Object(members) => StrictMembers(members)
  }

  predicate StrictElements(e: Elements) {
    match e
    case NoElements(_) => true
    case LastElement(_, value, _, trailing) => IsStrict(value) && trailing.None?
    case MoreElements(_, value, _, rest) => IsStrict(value) && StrictElements(rest)
  }

  predicate StrictMembers(ms: Members) {
    match ms
    case NoMembers(_) => true
    case LastMember(m, trailing) => StrictItems(m.key) && IsStrict(m.value) && trailing.None?
    case MoreMembers(m, rest) => StrictItems(m.key) && IsStrict(m.value) && StrictMembers(rest)
  }

  lemma {:induction false} StrictItemsAreFixed(items: seq<Item>)
    requires StrictItems(items)
    ensures FixItems(items) == items && QuotesOk(items)
  {
    if items != [] {
      assert items[0] in items && forall i :: i in items[1..] ==> i in items;
      StrictItemsAreFixed(items[1..]);
    }
  }

  lemma {:induction false} StrictIsFixed(j: Json)
    requires IsStrict(j)
    ensures Fix(j) == j && Clear(j)
    decreases j, 0
  {
    match j
    case Scalar(_) =>
    case Text(items) => StrictItemsAreFixed(items);
    case Array(elems) => StrictElementsAreFixed(elems);
    case Object(members) => StrictMembersAreFixed(members);
  }

  lemma {:induction false} StrictElementsAreFixed(e: Elements)
    requires StrictElements(e)
    ensures FixElements(e) == e && ClearElements(e)
    decreases e, 1
  {
    if !e.NoElements? { StrictIsFixed(e.value); }
    if e.LastElement? { assert e.after + "" == e.after; }
    if e.MoreElements? { StrictElementsAreFixed(e.rest); }
  }

  lemma {:induction false} StrictMembersAreFixed(ms: Members)
    requires StrictMembers(ms)
    ensures FixMembers(ms) == ms && ClearMembers(ms)
    decreases ms, 1
  {
    if !ms.NoMembers? { StrictItemsAreFixed(ms.m.key); StrictIsFixed(ms.m.value); }
    if ms.LastMember? { assert ms.m.after + "" == ms.m.after; }
    if ms.MoreMembers? { StrictMembersAreFixed(ms.rest); }
  }

  // The identity on every strict JSON text.
  lemma StrictTextsPassUnchanged(d: Document)
    requires DocumentOk(d) && IsStrict(d.value)
    ensures Repair(Written(d), Outside) == Written(d)
  {
    StrictIsFixed(d.value);
    RepairsExactlyClearTexts(d);
  }

  lemma {:induction false} FixedItemsAreStrict(items: seq<Item>)
    requires forall i :: i in items ==> ItemOk(i)
    ensures StrictItems(FixItems(items)) && forall i :: i in FixItems(items) ==> ItemOk(i)
  {
    if items != [] {
      assert forall i :: i in items[1..] ==> i in items;
      FixedItemsAreStrict(items[1..]);
    }
  }

  lemma {:induction false} FixedIsStrict(j: Json)
    requires Ok(j)
    ensures IsStrict(Fix(j)) && Ok(Fix(j))
    decreases j, 0
  {
    match j
    case Scalar(_) =>
    case Text(items) => FixedItemsAreStrict(items);
    case Array(elems) => FixedElementsAreStrict(elems);
    case Object(members) => FixedMembersAreStrict(members);
  }

  lemma {:induction false} FixedElementsAreStrict(e: Elements)
    requires ElementsOk(e)
    ensures StrictElements(FixElements(e)) && ElementsOk(FixElements(e))
    decreases e, 1
  {
    if !e.NoElements? { FixedIsStrict(e.value); }
    if e.MoreElements? { FixedElementsAreStrict(e.rest); }
  }

  lemma {:induction false} FixedMembersAreStrict(ms: Members)
    requires MembersOk(ms)
    ensures StrictMembers(FixMembers(ms)) && MembersOk(FixMembers(ms))
    decreases ms, 1
  {
    if !ms.NoMembers? { FixedItemsAreStrict(ms.m.key); FixedIsStrict(ms.m.value); }
    if ms.MoreMembers? { FixedMembersAreStrict(ms.rest); }
  }

  // On clear texts a second repair changes nothing.
  lemma RepairTwiceOnClearTexts(d: Document)
    requires DocumentOk(d) && Clear(d.value)
    ensures Repair(Repair(Written(d), Outside), Outside) == Repair(Written(d), Outside)
  {
    RepairsExactlyClearTexts(d);
    FixedIsStrict(d.value);
    StrictTextsPassUnchanged(Meant(d));
  }

  // ---------------------------------------------------------------- when a second repair changes nothing

  // What follows the first visible character.
  function AfterVisible(text: string): string {
    if text == [] then "" else if IsSpace(text[0]) then AfterVisible(text[1..]) else text[1..]
  }

  // A comma and then a closing bracket are the next visible characters: the comma goes in the first pass.
  predicate DropsNext(text: string) {
    NextVisible(text) == Some(',') && Closes(NextVisible(AfterVisible(text)))
  }

  // Somewhere outside strings a comma is followed by such a comma, so it survives the first pass and is then
  // followed by the bracket.
  predicate LeavesComma(text: string, mode: Mode) {
    && text != []
    && ((mode == Outside && text[0] == ',' && DropsNext(text[1..]))
        || LeavesComma(text[1..], Emit(mode, text[0], text[1..]).1))
  }

  // The first visible character of a repaired text.
  lemma {:induction false} NextOut(text: string)
    ensures NextVisible(Repair(text, Outside)) ==
      NextVisible(if DropsNext(text) then AfterVisible(text) else text)
  {
    if text != [] {
      var rest := text[1..];
      if IsSpace(text[0]) {
        NextOut(rest);
        RepairStep(text[0], rest, Outside);
        assert text == [text[0]] + rest;
      } else if DropsNext(text) {
        NextOut(rest);
        assert "" + Repair(rest, Outside) == Repair(rest, Outside);
      }
    }
  }

  // A kept comma is followed, after the first pass, by a closing bracket exactly if one comma more went.
  lemma CommaAgain(rest: string)
    requires !Closes(NextVisible(rest))
    ensures var first := Repair(rest, Outside);
      Repair([','] + first, Outside) == (if DropsNext(rest) then "" else [',']) + Repair(first, Outside)
  {
    RepairStep(',', Repair(rest, Outside), Outside);
    NextOut(rest);
  }

  // A quote that ended its string still does.
  lemma QuoteAgain(rest: string)
    requires EndsString(NextVisible(rest))
    ensures var first := Repair(rest, Outside);
      Repair(['"'] + first, InString) == ['"'] + Repair(first, Outside)
  {
    RepairStep('"', Repair(rest, Outside), InString);
    NextOut(rest);
  }

  // Any other kept character is read as before.
  lemma PlainAgain(mode: Mode, c: char, rest: string)
    requires !(mode == Outside && c == ',') && !(mode == InString && c in "\"\n\r\t")
    ensures Emit(mode, c, rest).0 == [c]
    ensures var next := Emit(mode, c, rest).1;
      Repair([c] + Repair(rest, next), mode) == [c] + Repair(Repair(rest, next), next)
  {
    RepairStep(c, Repair(rest, Emit(mode, c, rest).1), mode);
  }

  // The second pass over the output for one character: the same again, but for a comma left before a bracket.
  lemma Again(mode: Mode, c: char, rest: string)
    ensures var (out, next) := Emit(mode, c, rest);
      var again := Repair(Repair(rest, next), next);
      Repair(out + Repair(rest, next), mode) ==
        (if mode == Outside && c == ',' && DropsNext(rest) then "" else out) + again
  {
    var (out, next) := Emit(mode, c, rest);
    var first := Repair(rest, next);
    if out == [] {
      assert out + first == first && out + Repair(first, next) == Repair(first, next);
    } else if |out| == 2 {
      EscapeStep(out[1], first);
      assert out == ['\\', out[1]];
    } else if mode == Outside && c == ',' {
      CommaAgain(rest);
    } else if mode == InString && c == '"' {
      QuoteAgain(rest);
    } else {
      PlainAgain(mode, c, rest);
    }
  }

  lemma {:induction false} Twice(text: string, mode: Mode)
    ensures var first := Repair(text, mode);
      if LeavesComma(text, mode) then |Repair(first, mode)| < |first| else Repair(first, mode) == first
  {
    if text != [] {
      Again(mode, text[0], text[1..]);
      Twice(text[1..], Emit(mode, text[0], text[1..]).1);
    }
  }

  // Repair is idempotent on exactly these texts: of several commas before a bracket each pass removes one.
  lemma RepairTwiceIff(text: string)
    ensures Repair(Repair(text, Outside), Outside) == Repair(text, Outside) <==> !LeavesComma(text, Outside)
  {
    Twice(text, Outside);
  }
}
