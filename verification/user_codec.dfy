/**
 * A stand-in for `JSON.stringify` / `JSON.parse` applied to the current-user record.
 * The record is an object of string-valued fields; serialisation writes
 * `{"key":"value",...}` escaping only `"` and `\`, and parsing accepts exactly that
 * shape. Storing `JSON.stringify(undefined)` with `setItem` writes the text
 * `undefined`, which parsing rejects, as `JSON.parse` does.
 */
module UserCodec {
  import opened Wrappers

  datatype Field = Field(key: string, value: string)

  /** The server-defined user record, opaque to the client layer beyond its fields. */
  datatype User = User(fields: seq<Field>)

  /** What `localStorage.setItem` stores for an `undefined` user. */
  const UndefinedText := "undefined"

  function EscapeChar(c: char): (r: string)
    ensures |r| >= 1 && r[|r| - 1] == c
  {
    if c == '"' || c == '\\' then ['\\', c] else [c]
  }

  function Escape(s: string): string {
    if s == [] then [] else EscapeChar(s[0]) + Escape(s[1..])
  }

  function Quote(s: string): string {
    "\"" + Escape(s) + "\""
  }

  function EncodeField(f: Field): string {
    Quote(f.key) + ":" + Quote(f.value)
  }

  /** The fields, comma-separated, in order. */
  function EncodeFields(fs: seq<Field>): string {
    if fs == [] then ""
    else if |fs| == 1 then EncodeField(fs[0])
    else EncodeField(fs[0]) + "," + EncodeFields(fs[1..])
  }

  function Encode(u: User): (text: string)
    ensures |text| >= 2 && text[0] == '{'
  {
    "{" + EncodeFields(u.fields) + "}"
  }

  /** The text `setItem(key, JSON.stringify(v))` leaves in the store. */
  function StoredText(v: Option<User>): (text: string)
    ensures text != ""
  {
    match v
    case Some(u) => Encode(u)
    case None => UndefinedText
  }

  /**
   * Reads the rest of a quoted string whose opening quote is already consumed:
   * the unescaped content and the text after the closing quote.
   */
  function ReadString(t: string): (r: Option<(string, string)>)
    ensures r.Some? ==> |r.value.1| < |t|
    decreases |t|
  {
    if t == [] then None
    else if t[0] == '"' then Some(([], t[1..]))
    else if t[0] == '\\' then
      if |t| < 2 then None
      else match ReadString(t[2..])
        case None => None
        case Some((content, rest)) => Some(([t[1]] + content, rest))
    else match ReadString(t[1..])
      case None => None
      case Some((content, rest)) => Some(([t[0]] + content, rest))
  }

  /** Reads one `"key":"value"` member; answers it and the text after its closing quote. */
  function ReadMember(t: string): (r: Option<(Field, string)>)
    ensures r.Some? ==> |r.value.1| < |t|
  {
    if t == [] || t[0] != '"' then None
    else match ReadString(t[1..])
      case None => None
      case Some((key, afterKey)) =>
        if |afterKey| < 2 || afterKey[0] != ':' || afterKey[1] != '"' then None
        else match ReadString(afterKey[2..])
          case None => None
          case Some((value, afterValue)) => Some((Field(key, value), afterValue))
  }

  /**
   * Reads one or more members separated by commas and closed by `}`;
   * answers the members and the text after the closing brace.
   */
  function ReadMembers(t: string): (r: Option<(seq<Field>, string)>)
    ensures r.Some? ==> |r.value.1| < |t| && r.value.0 != []
    decreases |t|
  {
    match ReadMember(t)
    case None => None
    case Some((f, after)) =>
      if after == [] then None
      else if after[0] == '}' then Some(([f], after[1..]))
      else if after[0] == ',' then
        match ReadMembers(after[1..])
        case None => None
        case Some((more, rest)) => Some(([f] + more, rest))
      else None
  }

  /** Parses a stored user text; `None` is a text `JSON.parse` would throw on. */
  function Parse(text: string): Option<User> {
    if |text| < 2 || text[0] != '{' then None
    else if text[1] == '}' then (if |text| == 2 then Some(User([])) else None)
    else match ReadMembers(text[1..])
      case Some((fs, rest)) => if rest == [] then Some(User(fs)) else None
      case None => None
  }

  lemma {:induction false} ReadStringEscape(s: string, rest: string)
    ensures ReadString(Escape(s) + "\"" + rest) == Some((s, rest))
    decreases |s|
  {
    var t := Escape(s) + "\"" + rest;
    if s == [] {
      assert t == "\"" + rest;
    } else {
      var c := s[0];
      ReadStringEscape(s[1..], rest);
      var tail := Escape(s[1..]) + "\"" + rest;
      assert t == EscapeChar(c) + tail;
      if c == '"' || c == '\\' {
        assert t[0] == '\\' && t[1] == c;
        assert t[2..] == tail;
      } else {
        assert t[0] == c;
        assert t[1..] == tail;
      }
      assert [c] + s[1..] == s;
    }
  }

  /** How `ReadMember` succeeds, stated over an arbitrary text. */
  lemma ReadMemberFrom(t: string, key: string, afterKey: string, value: string, after: string)
    requires t != [] && t[0] == '"' && ReadString(t[1..]) == Some((key, afterKey))
    requires |afterKey| >= 2 && afterKey[0] == ':' && afterKey[1] == '"'
    requires ReadString(afterKey[2..]) == Some((value, after))
    ensures ReadMember(t) == Some((Field(key, value), after))
  {
  }

  /** What follows the key of a serialised member: the colon and the quoted value. */
  function AfterKey(f: Field, after: string): string {
    ":\"" + Escape(f.value) + "\"" + after
  }

  lemma ReadKey(f: Field, after: string)
    ensures var t := EncodeField(f) + after;
      t != [] && t[0] == '"' && ReadString(t[1..]) == Some((f.key, AfterKey(f, after)))
  {
    var t := EncodeField(f) + after;
    assert t == "\"" + (Escape(f.key) + "\"" + AfterKey(f, after));
    assert t[1..] == Escape(f.key) + "\"" + AfterKey(f, after);
    ReadStringEscape(f.key, AfterKey(f, after));
  }

  lemma ReadValue(f: Field, after: string)
    ensures var a := AfterKey(f, after);
      |a| >= 2 && a[0] == ':' && a[1] == '"' && ReadString(a[2..]) == Some((f.value, after))
  {
    var a := AfterKey(f, after);
    assert a[2..] == Escape(f.value) + "\"" + after;
    ReadStringEscape(f.value, after);
  }

  /** One serialised member reads back, leaving what follows it. */
  lemma ReadMemberEncode(f: Field, after: string)
    ensures ReadMember(EncodeField(f) + after) == Some((f, after))
  {
    ReadKey(f, after);
    ReadValue(f, after);
    ReadMemberFrom(EncodeField(f) + after, f.key, AfterKey(f, after), f.value, after);
  }

  /** How `ReadMembers` continues after one member, stated over an arbitrary text. */
  lemma ReadMembersFrom(t: string, f: Field, after: string)
    requires ReadMember(t) == Some((f, after))
    ensures after != [] && after[0] == '}' ==> ReadMembers(t) == Some(([f], after[1..]))
    ensures after != [] && after[0] == ',' && ReadMembers(after[1..]).Some? ==>
      ReadMembers(t) == Some(([f] + ReadMembers(after[1..]).value.0, ReadMembers(after[1..]).value.1))
  {
  }

  lemma EncodeFieldsSplit(fs: seq<Field>, rest: string)
    requires fs != []
    ensures |fs| == 1 ==> EncodeFields(fs) + "}" + rest == EncodeField(fs[0]) + ("}" + rest)
    ensures |fs| > 1 ==>
      EncodeFields(fs) + "}" + rest == EncodeField(fs[0]) + ("," + (EncodeFields(fs[1..]) + "}" + rest))
  {
    var head := EncodeField(fs[0]);
    if |fs| > 1 {
      var tail := EncodeFields(fs[1..]);
      assert EncodeFields(fs) == head + "," + tail;
      SeqAssoc(head, ",", tail, "}", rest);
    }
  }

  lemma SeqAssoc(a: string, b: string, c: string, d: string, e: string)
    ensures a + b + c + d + e == a + (b + (c + d + e))
  {
  }

  /** The last member of a serialised list reads back with the closing brace. */
  lemma ReadLastMember(f: Field, rest: string)
    ensures ReadMembers(EncodeFields([f]) + "}" + rest) == Some(([f], rest))
  {
    var after := "}" + rest;
    EncodeFieldsSplit([f], rest);
    ReadMemberEncode(f, after);
    ReadMembersFrom(EncodeField(f) + after, f, after);
    assert after[1..] == rest;
  }

  /** A member followed by a comma reads back, then the remaining list. */
  lemma ReadMemberThenMore(fs: seq<Field>, rest: string)
    requires |fs| > 1
    requires ReadMembers(EncodeFields(fs[1..]) + "}" + rest) == Some((fs[1..], rest))
    ensures ReadMembers(EncodeFields(fs) + "}" + rest) == Some((fs, rest))
  {
    var f := fs[0];
    var tail := EncodeFields(fs[1..]) + "}" + rest;
    var after := "," + tail;
    EncodeFieldsSplit(fs, rest);
    ReadMemberEncode(f, after);
    assert after[1..] == tail;
    ReadMembersFrom(EncodeField(f) + after, f, after);
    assert [f] + fs[1..] == fs;
  }

  lemma {:induction false} ReadMembersEncode(fs: seq<Field>, rest: string)
    requires fs != []
    ensures ReadMembers(EncodeFields(fs) + "}" + rest) == Some((fs, rest))
    decreases |fs|
  {
    if |fs| == 1 {
      assert fs == [fs[0]];
      ReadLastMember(fs[0], rest);
    } else {
      ReadMembersEncode(fs[1..], rest);
      ReadMemberThenMore(fs, rest);
    }
  }

  /** Parsing what was serialised gives the record back. */
  lemma {:induction false} ParseEncode(u: User)
    ensures Parse(Encode(u)) == Some(u)
  {
    var text := Encode(u);
    if u.fields == [] {
      assert text == "{}";
    } else {
      assert text[1..] == EncodeFields(u.fields) + "}" + "";
      ReadMembersEncode(u.fields, "");
      assert EncodeField(u.fields[0])[0] == '"';
      assert text[1] == '"';
    }
  }

  /** What is stored for a user reads back as that user; the `undefined` text does not parse. */
  lemma StoredTextRoundTrip(v: Option<User>)
    ensures v.Some? ==> Parse(StoredText(v)) == v
    ensures v.None? ==> Parse(StoredText(v)).None?
  {
    if v.Some? {
      ParseEncode(v.value);
    }
  }
}
