/**
 The keyword/value form of a PostgreSQL connection string: the tokenizer as it scans, and the libpq way of
 writing settings down. Printing and scanning undo each other.
 */
module PostgresDsn {
  import opened Options
  import opened Trimming

  predicate IsSpace(c: char) {
    c == ' ' || c == '\t' || c == '\n' || c == '\r' || c == '\U{000B}' || c == '\U{000C}'
  }

  /** The space and the five control characters from tab to carriage return. */
  lemma SpacesAre(c: char)
    ensures IsSpace(c) <==> c as int == 0x20 || 0x09 <= c as int <= 0x0D
  {
  }

  predicate AllSpace(s: string) {
    forall i | 0 <= i < |s| :: IsSpace(s[i])
  }

  predicate NoSpace(s: string) {
    forall i | 0 <= i < |s| :: !IsSpace(s[i])
  }

  /** Where `strings.Cut` at an equals sign splits, or the length. */
  function FirstEquals(s: string): (i: nat)
    ensures i <= |s| && (i < |s| ==> s[i] == '=') && '=' !in s[..i]
  {
    if s == "" || s[0] == '=' then 0
    else
      var i := FirstEquals(s[1..]) + 1;
      assert s[..i] == [s[0]] + s[1..][..i - 1];
      i
  }

  // ----- what the tokenizer reads

  /** A value, unescaped, and the unread rest. */
  datatype Scanned = Scanned(val: string, rest: string)

  function Prepend(c: char, r: Option<Scanned>): Option<Scanned> {
    if r.Some? then Some(Scanned([c] + r.value.val, r.value.rest)) else None
  }

  /** Reads up to the closing quote or the first space; a backslash takes the next character as it stands. */
  function ScanBody(quoted: bool, s: string): (r: Option<Scanned>)
    ensures r.Some? ==> |r.value.rest| <= |s|
    decreases |s|
  {
    if s == "" then (if quoted then None else Some(Scanned("", "")))
    else if quoted && s[0] == '\'' then Some(Scanned("", s[1..]))
    else if !quoted && IsSpace(s[0]) then Some(Scanned("", s))
    else if s[0] == '\\' then
      if |s| == 1 then ScanBody(quoted, "") else Prepend(s[1], ScanBody(quoted, s[2..]))
    else Prepend(s[0], ScanBody(quoted, s[1..]))
  }

  function ScanValue(s: string): (r: Option<Scanned>)
    ensures r.Some? ==> |r.value.rest| <= |s|
  {
    if s != "" && s[0] == '\'' then ScanBody(true, s[1..]) else ScanBody(false, s)
  }

  /** The rest of a connection string over the settings read so far; a later setting of a key wins. */
  function ScanFrom(s: string, settings: map<string, string>): Option<map<string, string>>
    decreases |s|
  {
    if s == "" then Some(settings)
    else
      var i := FirstEquals(s);
      var key := Trim(s[..i], IsSpace);
      if i == |s| || key == "" || !NoSpace(key) then None
      else
        var v := ScanValue(TrimLeft(s[i + 1..], IsSpace));
        if v.None? then None else ScanFrom(TrimLeft(v.value.rest, IsSpace), settings[key := v.value.val])
  }

  function Scan(s: string): Option<map<string, string>> {
    ScanFrom(TrimLeft(s, IsSpace), map[])
  }

  // ----- how settings are written

  /** A setting as text: spaces may surround the equals sign and follow the value. */
  datatype Item = Item(key: string, val: string, quoted: bool, before: string, after: string, trail: string)

  /** A key the scanner can give back. */
  predicate KeyOk(key: string) {
    key != "" && NoSpace(key) && '=' !in key
  }

  predicate NeedsEscape(c: char, quoted: bool) {
    c == '\'' || c == '\\' || (!quoted && IsSpace(c))
  }

  function EscapeChar(c: char, quoted: bool): string {
    if NeedsEscape(c, quoted) then ['\\', c] else [c]
  }

  function Escape(v: string, quoted: bool): string {
    if v == "" then "" else EscapeChar(v[0], quoted) + Escape(v[1..], quoted)
  }

  function WriteValue(v: string, quoted: bool): string {
    if quoted then "'" + Escape(v, true) + "'" else Escape(v, false)
  }

  /** Quoted values need nothing; a bare one is the last, or is non-empty and ends at a space. */
  predicate ItemOk(it: Item, last: bool) {
    && KeyOk(it.key) && AllSpace(it.before) && AllSpace(it.after) && AllSpace(it.trail)
    && (!it.quoted ==> last || (it.val != "" && it.trail != ""))
  }

  function WriteItem(it: Item): string {
    it.key + it.before + "=" + it.after + WriteValue(it.val, it.quoted) + it.trail
  }

  function Write(items: seq<Item>): string {
    if items == [] then "" else WriteItem(items[0]) + Write(items[1..])
  }

  predicate ItemsOk(items: seq<Item>) {
    forall i | 0 <= i < |items| :: ItemOk(items[i], i == |items| - 1)
  }

  function LastWins(items: seq<Item>, settings: map<string, string>): map<string, string> {
    if items == [] then settings else LastWins(items[1..], settings[items[0].key := items[0].val])
  }

  // ----- printing, then scanning

  lemma {:induction false} TrimLeftOfSpaces(ws: string, s: string)
    requires AllSpace(ws)
    ensures TrimLeft(ws + s, IsSpace) == TrimLeft(s, IsSpace)
  {
    if ws == "" {
      assert ws + s == s;
    } else {
      assert (ws + s)[1..] == ws[1..] + s;
      TrimLeftOfSpaces(ws[1..], s);
    }
  }

  lemma {:induction false} TrimRightOfSpaces(s: string, ws: string)
    requires AllSpace(ws) && (s == "" || !IsSpace(s[|s| - 1]))
    ensures TrimRight(s + ws, IsSpace) == s
  {
    if ws == "" {
      assert s + ws == s;
    } else {
      assert (s + ws)[..|s + ws| - 1] == s + ws[..|ws| - 1];
      TrimRightOfSpaces(s, ws[..|ws| - 1]);
    }
  }

  lemma ScanOfEscapedChar(c: char, quoted: bool, t: string)
    ensures ScanBody(quoted, EscapeChar(c, quoted) + t) == Prepend(c, ScanBody(quoted, t))
  {
    var s := EscapeChar(c, quoted) + t;
    assert s[|EscapeChar(c, quoted)|..] == t;
  }

  /** The text that ends a value: the closing quote, or whatever a bare value may be followed by. */
  function Ending(quoted: bool, rest: string): string {
    if quoted then "'" + rest else rest
  }

  lemma ScanOfEnding(quoted: bool, rest: string)
    requires !quoted ==> rest == "" || IsSpace(rest[0])
    ensures ScanBody(quoted, Ending(quoted, rest)) == Some(Scanned("", rest))
  {
    if quoted {
      assert Ending(quoted, rest)[1..] == rest;
    }
  }

  lemma EscapeOnto(v: string, quoted: bool, tail: string)
    requires v != ""
    ensures Escape(v, quoted) + tail == EscapeChar(v[0], quoted) + (Escape(v[1..], quoted) + tail)
  {
  }

  lemma {:induction false} ScanOfEscape(v: string, quoted: bool, rest: string)
    requires !quoted ==> rest == "" || IsSpace(rest[0])
    ensures ScanBody(quoted, Escape(v, quoted) + Ending(quoted, rest)) == Some(Scanned(v, rest))
  {
    var tail := Ending(quoted, rest);
    if v == "" {
      assert Escape(v, quoted) + tail == tail;
      ScanOfEnding(quoted, rest);
    } else {
      ScanOfEscape(v[1..], quoted, rest);
      EscapeOnto(v, quoted, tail);
      ScanOfEscapedChar(v[0], quoted, Escape(v[1..], quoted) + tail);
      assert v == [v[0]] + v[1..];
    }
  }

  lemma EscapeHead(v: string)
    requires v != ""
    ensures var e := Escape(v, false); e != "" && e[0] != '\'' && !IsSpace(e[0])
  {
  }

  /** One written value, then anything it may be followed by. */
  lemma ScanOfWritten(v: string, quoted: bool, rest: string)
    requires !quoted ==> v != "" && (rest == "" || IsSpace(rest[0]))
    ensures ScanValue(WriteValue(v, quoted) + rest) == Some(Scanned(v, rest))
    ensures WriteValue(v, quoted) != "" && !IsSpace(WriteValue(v, quoted)[0])
  {
    var written := WriteValue(v, quoted);
    var body := Escape(v, quoted) + Ending(quoted, rest);
    if quoted {
      assert written + rest == "'" + body;
      assert ("'" + body)[1..] == body;
    } else {
      EscapeHead(v);
      assert written + rest == body;
    }
    assert ScanValue(written + rest) == ScanBody(quoted, body);
    ScanOfEscape(v, quoted, rest);
  }

  lemma {:induction false} FirstEqualsAt(a: string, b: string)
    requires '=' !in a
    ensures FirstEquals(a + "=" + b) == |a|
  {
    if a != "" {
      assert (a + "=" + b)[1..] == a[1..] + "=" + b;
      FirstEqualsAt(a[1..], b);
    }
  }

  /** One round of the scan, given where the key, the value and the rest are. */
  lemma ScanRound(s: string, head: string, tail: string, key: string, v: Scanned, settings: map<string, string>)
    requires s == head + "=" + tail && '=' !in head && Trim(head, IsSpace) == key && key != "" && NoSpace(key)
    requires ScanValue(TrimLeft(tail, IsSpace)) == Some(v)
    ensures ScanFrom(s, settings) == ScanFrom(TrimLeft(v.rest, IsSpace), settings[key := v.val])
  {
    FirstEqualsAt(head, tail);
    assert s[..|head|] == head && s[|head| + 1..] == tail;
  }

  /** A written setting followed by more text is read as that setting, and the text is what is left. */
  lemma ScanOfItem(it: Item, more: string, settings: map<string, string>)
    requires ItemOk(it, more == "") && (more == "" || !IsSpace(more[0]))
    ensures ScanFrom(WriteItem(it) + more, settings) == ScanFrom(more, settings[it.key := it.val])
  {
    var head, value, rest := it.key + it.before, WriteValue(it.val, it.quoted), it.trail + more;
    var tail := it.after + (value + rest);
    assert WriteItem(it) + more == head + "=" + tail;
    assert '=' !in head by {
      assert forall i | 0 <= i < |it.before| :: IsSpace(it.before[i]);
    }
    assert Trim(head, IsSpace) == it.key by {
      assert TrimLeft(head, IsSpace) == head;
      TrimRightOfSpaces(it.key, it.before);
    }
    if value == "" {
      assert tail == it.after + it.trail && TrimLeft(tail, IsSpace) == "" by {
        TrimLeftOfSpaces(tail, "");
        assert tail + "" == tail;
      }
      ScanRound(WriteItem(it) + more, head, tail, it.key, Scanned("", ""), settings);
    } else {
      assert ScanValue(TrimLeft(tail, IsSpace)) == Some(Scanned(it.val, rest)) by {
        ScanOfWritten(it.val, it.quoted, rest);
        TrimLeftOfSpaces(it.after, value + rest);
      }
      ScanRound(WriteItem(it) + more, head, tail, it.key, Scanned(it.val, rest), settings);
      TrimLeftOfSpaces(it.trail, more);
    }
  }

  lemma {:induction false} ScanOfWrite(items: seq<Item>, settings: map<string, string>)
    requires ItemsOk(items)
    ensures ScanFrom(Write(items), settings) == Some(LastWins(items, settings))
    ensures Write(items) == "" || !IsSpace(Write(items)[0])
    ensures Write(items) == "" <==> items == []
  {
    if items != [] {
      var it, more := items[0], items[1..];
      ScanOfWrite(more, settings[it.key := it.val]);
      assert ItemOk(it, more == []);
      ScanOfItem(it, Write(more), settings);
      assert WriteItem(it)[0] == it.key[0];
    }
  }

  /** Scanning what was written gives the last value written for each key, for every list of settings, every
      value and every spacing. */
  lemma ScanUndoesWrite(lead: string, items: seq<Item>)
    requires AllSpace(lead) && ItemsOk(items)
    ensures Scan(lead + Write(items)) == Some(LastWins(items, map[]))
  {
    ScanOfWrite(items, map[]);
    TrimLeftOfSpaces(lead, Write(items));
  }

  // ----- what is refused

  /** A quote that is opened and never closed, whatever is behind it, a last backslash included. */
  lemma {:induction false} UnclosedBody(v: string, backslash: bool)
    ensures ScanBody(true, Escape(v, true) + if backslash then "\\" else "") == None
  {
    var tail := if backslash then "\\" else "";
    if v == "" {
      assert Escape(v, true) + tail == tail;
      assert tail != "" ==> ScanBody(true, tail) == ScanBody(true, "");
    } else {
      UnclosedBody(v[1..], backslash);
      EscapeOnto(v, true, tail);
      ScanOfEscapedChar(v[0], true, Escape(v[1..], true) + tail);
    }
  }

  lemma UnclosedQuoteIsRefused(key: string, v: string, backslash: bool, settings: map<string, string>)
    requires KeyOk(key)
    ensures ScanFrom(key + "=" + ("'" + (Escape(v, true) + if backslash then "\\" else "")), settings) == None
  {
    var body := Escape(v, true) + if backslash then "\\" else "";
    var s := key + "=" + ("'" + body);
    UnclosedBody(v, backslash);
    FirstEqualsAt(key, "'" + body);
    assert s[..|key|] == key && s[|key| + 1..] == "'" + body;
    assert ("'" + body)[1..] == body;
    TrimRightOfSpaces(key, "");
    assert key + "" == key;
    assert ScanValue(TrimLeft("'" + body, IsSpace)) == ScanBody(true, body);
  }

  /** Text without an equals sign is no setting. */
  lemma KeyWithoutEqualsIsRefused(s: string, settings: map<string, string>)
    requires s != "" && '=' !in s
    ensures ScanFrom(s, settings) == None
  {
  }

  /** So settings need an equals sign. */
  lemma SettingsNeedEquals(s: string)
    ensures Scan(s).Some? && Scan(s).value != map[] ==> '=' in s
  {
    TrimLeftKeeps(s, IsSpace);
    if '=' !in s && TrimLeft(s, IsSpace) != "" {
      KeyWithoutEqualsIsRefused(TrimLeft(s, IsSpace), map[]);
    }
  }

  /** A setting needs a key. */
  lemma EmptyKeyIsRefused(before: string, rest: string, settings: map<string, string>)
    requires AllSpace(before)
    ensures ScanFrom(before + "=" + rest, settings) == None
  {
    var s := before + "=" + rest;
    assert '=' !in before by {
      assert forall i | 0 <= i < |before| :: IsSpace(before[i]);
    }
    FirstEqualsAt(before, rest);
    assert s[..|before|] == before;
    TrimLeftOfSpaces(before, "");
    assert before + "" == before;
  }

  /** A key holds no space. */
  lemma SpacedKeyIsRefused(a: string, space: string, b: string, rest: string, settings: map<string, string>)
    requires KeyOk(a) && KeyOk(b) && space != "" && AllSpace(space)
    ensures ScanFrom(a + space + b + "=" + rest, settings) == None
  {
    var head := a + space + b;
    var s := head + "=" + rest;
    assert '=' !in head by {
      assert forall i | 0 <= i < |space| :: IsSpace(space[i]);
    }
    FirstEqualsAt(head, rest);
    assert s[..|head|] == head;
    TrimRightOfSpaces(head, "");
    assert head + "" == head && Trim(head, IsSpace) == head;
    assert head[|a|] == space[0];
  }

  /** Whatever settings come first, the text behind them decides: a refusal there refuses the whole. */
  lemma {:induction false} ScanOfWriteThen(items: seq<Item>, more: string, settings: map<string, string>)
    requires forall i | 0 <= i < |items| :: ItemOk(items[i], false)
    requires more != "" && !IsSpace(more[0])
    ensures ScanFrom(Write(items) + more, settings) == ScanFrom(more, LastWins(items, settings))
  {
    if items == [] {
      assert Write(items) + more == more;
    } else {
      var it, rest := items[0], Write(items[1..]) + more;
      ScanOfWriteThen(items[1..], more, settings[it.key := it.val]);
      assert Write(items) + more == WriteItem(it) + rest;
      WriteStarts(items[1..], more);
      ScanOfItem(it, rest, settings);
    }
  }

  lemma WriteStarts(items: seq<Item>, more: string)
    requires forall i | 0 <= i < |items| :: ItemOk(items[i], false)
    requires more != "" && !IsSpace(more[0])
    ensures Write(items) + more != "" && !IsSpace((Write(items) + more)[0])
  {
    if items != [] {
      assert (Write(items) + more)[0] == WriteItem(items[0])[0] == items[0].key[0];
    }
  }

  // ----- scanning, then printing

  lemma TrimmedKeyOk(head: string)
    requires '=' !in head && Trim(head, IsSpace) != "" && NoSpace(Trim(head, IsSpace))
    ensures KeyOk(Trim(head, IsSpace))
  {
    TrimLeftKeeps(head, IsSpace);
    TrimRightEnds(TrimLeft(head, IsSpace), IsSpace);
  }

  /** Every key the scanner yields can be written. */
  lemma {:induction false} ScannedKeysOk(s: string, settings: map<string, string>)
    requires forall k | k in settings :: KeyOk(k)
    ensures ScanFrom(s, settings).Some? ==> forall k | k in ScanFrom(s, settings).value :: KeyOk(k)
    decreases |s|
  {
    if s != "" {
      var i := FirstEquals(s);
      var key := Trim(s[..i], IsSpace);
      if i < |s| && key != "" && NoSpace(key) {
        TrimmedKeyOk(s[..i]);
        var v := ScanValue(TrimLeft(s[i + 1..], IsSpace));
        if v.Some? {
          ScannedKeysOk(TrimLeft(v.value.rest, IsSpace), settings[key := v.value.val]);
        }
      }
    }
  }

  /** Settings listed one quoted item per key. */
  ghost function Listing(settings: map<string, string>): (items: seq<Item>)
    requires forall k | k in settings :: KeyOk(k)
    ensures ItemsOk(items) && (forall i | 0 <= i < |items| :: items[i].key in settings)
    decreases settings.Keys
  {
    if settings == map[] then []
    else
      var k :| k in settings;
      [Item(k, settings[k], true, "", "", "")] + Listing(settings - {k})
  }

  lemma {:induction false} ListingIsComplete(settings: map<string, string>, base: map<string, string>)
    requires forall k | k in settings :: KeyOk(k)
    ensures LastWins(Listing(settings), base) == base + settings
    decreases settings.Keys
  {
    if settings != map[] {
      var items := Listing(settings);
      var k := items[0].key;
      assert items[1..] == Listing(settings - {k});
      ListingIsComplete(settings - {k}, base[k := settings[k]]);
    }
  }

  /** Whatever the scanner accepts can be written down and read back unchanged. */
  lemma WriteUndoesScan(s: string)
    requires Scan(s).Some?
    ensures forall k | k in Scan(s).value :: KeyOk(k)
    ensures Scan(Write(Listing(Scan(s).value))) == Scan(s)
  {
    ScannedKeysOk(TrimLeft(s, IsSpace), map[]);
    var items := Listing(Scan(s).value);
    ListingIsComplete(Scan(s).value, map[]);
    ScanUndoesWrite("", items);
    assert "" + Write(items) == Write(items);
    assert map[] + Scan(s).value == Scan(s).value;
  }

  // ----- the scanning loops

  /** The result of scanning on from a point where `val` has been read. */
  ghost function Resume(val: string, r: Option<Scanned>): Option<Scanned> {
    if r.Some? then Some(Scanned(val + r.value.val, r.value.rest)) else None
  }

  lemma ResumePrepend(val: string, c: char, r: Option<Scanned>)
    ensures Resume(val, Prepend(c, r)) == Resume(val + [c], r)
    ensures Resume("", r) == r
  {
    if r.Some? {
      assert val + ([c] + r.value.val) == (val + [c]) + r.value.val;
      assert "" + r.value.val == r.value.val;
    }
  }

  /** One round of the loop at `i`: past a backslash, then one character taken as it stands, if there is one. */
  lemma ScanOnward(quoted: bool, text: string, i: nat, val: string)
    requires i < |text| && !(if quoted then text[i] == '\'' else IsSpace(text[i]))
    ensures var j := if text[i] == '\\' then i + 1 else i;
            Resume(val, ScanBody(quoted, text[i..])) ==
              if j < |text| then Resume(val + [text[j]], ScanBody(quoted, text[j + 1..]))
              else Resume(val, ScanBody(quoted, ""))
  {
    var here, j := text[i..], if text[i] == '\\' then i + 1 else i;
    if j < |text| {
      assert here[j + 1 - i..] == text[j + 1..];
      ResumePrepend(val, text[j], ScanBody(quoted, text[j + 1..]));
    }
  }

  method KeywordValue(s: string) returns (r: Option<Scanned>)
    ensures r == ScanValue(s)
  {
    var quoted := s != "" && s[0] == '\'';
    var text := if quoted then s[1..] else s;
    var val := "";
    var i := 0;
    ResumePrepend("", ' ', ScanBody(quoted, text));
    while i < |text|
      invariant i <= |text| + 1
      invariant ScanValue(s) == Resume(val, ScanBody(quoted, if i <= |text| then text[i..] else ""))
      decreases |text| - i
    {
      var c := text[i];
      if quoted && c == '\'' {
        assert text[i..][1..] == text[i + 1..] && val + "" == val;
        return Some(Scanned(val, text[i + 1..]));
      } else if !quoted && IsSpace(c) {
        assert val + "" == val;
        return Some(Scanned(val, text[i..]));
      }
      ScanOnward(quoted, text, i, val);
      if c == '\\' {
        i := i + 1;
      }
      if i < |text| {
        val := val + [text[i]];
      }
      i := i + 1;
    }
    assert (if i <= |text| then text[i..] else "") == "" && val + "" == val;
    return if quoted then None else Some(Scanned(val, ""));
  }

  method KeywordSettings(s: string) returns (r: Option<map<string, string>>)
    ensures r == Scan(s)
  {
    var settings := map[];
    var text := TrimLeft(s, IsSpace);
    while text != ""
      invariant ScanFrom(text, settings) == Scan(s)
      decreases |text|
    {
      var i := FirstEquals(text);
      var key := Trim(text[..i], IsSpace);
      if i == |text| || key == "" || !NoSpace(key) {
        return None;
      }
      var v := KeywordValue(TrimLeft(text[i + 1..], IsSpace));
      if v.None? {
        return None;
      }
      settings := settings[key := v.value.val];
      text := TrimLeft(v.value.rest, IsSpace);
    }
    return Some(settings);
  }
}
