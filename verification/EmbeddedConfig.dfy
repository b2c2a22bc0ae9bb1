/**
 * The config slot baked into a client binary (visuara-common/src/embedded_config.rs): finding it by its marker,
 * overwriting it, and reading it back.
 */
module EmbeddedConfig {
  import opened Bytes
  import opened Text
  import opened Json

  /** "VISUARA_EMBEDDED_CONFIG_V1" and a NUL. */
  const CONFIG_MAGIC: seq<byte> :=
    [0x56, 0x49, 0x53, 0x55, 0x41, 0x52, 0x41, 0x5F, 0x45, 0x4D, 0x42, 0x45, 0x44, 0x44, 0x45, 0x44, 0x5F,
     0x43, 0x4F, 0x4E, 0x46, 0x49, 0x47, 0x5F, 0x56, 0x31, 0x00]
  const MAGIC_LEN: nat := 27
  const CONFIG_SLOT_SIZE: nat := 4096
  const TOTAL_LEN: nat := MAGIC_LEN + CONFIG_SLOT_SIZE

  /** server_url */
  const KEY_URL: seq<byte> := [0x73, 0x65, 0x72, 0x76, 0x65, 0x72, 0x5F, 0x75, 0x72, 0x6C]
  /** device_name */
  const KEY_NAME: seq<byte> := [0x64, 0x65, 0x76, 0x69, 0x63, 0x65, 0x5F, 0x6E, 0x61, 0x6D, 0x65]

  datatype Config = Config(serverUrl: Option<seq<byte>>, deviceName: Option<seq<byte>>)

  /** Its fields are strings. */
  predicate WellFormed(c: Config) {
    (c.serverUrl.Some? ==> ValidUtf8(c.serverUrl.value)) && (c.deviceName.Some? ==> ValidUtf8(c.deviceName.value))
  }

  // ----- The JSON object -----

  function PrintMember(key: seq<byte>, v: Option<seq<byte>>): seq<byte> { PrintString(key) + [COLON] + PrintValue(v) }

  function Print(c: Config): seq<byte> {
    [OPEN] + PrintMember(KEY_URL, c.serverUrl) + [COMMA] + PrintMember(KEY_NAME, c.deviceName) + [CLOSE]
  }

  /** The fields seen so far; a field may be seen once. */
  datatype Partial = Partial(url: Option<Option<seq<byte>>>, name: Option<Option<seq<byte>>>)

  function Store(p: Partial, key: seq<byte>, v: Option<seq<byte>>): Option<Partial> {
    if key == KEY_URL then if p.url.Some? then None else Some(p.(url := Some(v)))
    else if key == KEY_NAME then if p.name.Some? then None else Some(p.(name := Some(v)))
    else Some(p)
  }

  function ParseMember(s: seq<byte>, p: Partial): (r: Option<(Partial, seq<byte>)>)
    ensures r.Some? ==> |r.value.1| < |s|
  {
    match ParseString(SkipSpace(s))
    case None => None
    case Some((key, rest)) =>
      var rest := SkipSpace(rest);
      if rest == [] || rest[0] != COLON then None
      else
        match ParseValue(SkipSpace(rest[1..]))
        case None => None
        case Some((v, rest)) =>
          match Store(p, key, v)
          case None => None
          case Some(p') => Some((p', rest))
  }

  /** What may follow a member: another one, or the end of the object. */
  function ParseMore(s: seq<byte>, p: Partial): Option<(Partial, seq<byte>)>
    decreases |s|
  {
    var s := SkipSpace(s);
    if s == [] then None
    else if s[0] == CLOSE then Some((p, s[1..]))
    else if s[0] != COMMA then None
    else
      match ParseMember(s[1..], p)
      case None => None
      case Some((p', rest)) => ParseMore(rest, p')
  }

  function Field(v: Option<Option<seq<byte>>>): Option<seq<byte>> { if v.Some? then v.value else None }

  /** `serde_json::from_slice`; absent fields are None, and nothing but whitespace may follow the object. */
  function Parse(s: seq<byte>): Option<Config> {
    var s := SkipSpace(s);
    if s == [] || s[0] != OPEN then None
    else
      var body := SkipSpace(s[1..]);
      var parsed: Option<(Partial, seq<byte>)> :=
        if body != [] && body[0] == CLOSE then Some((Partial(None, None), body[1..]))
        else match ParseMember(body, Partial(None, None))
             case None => None
             case Some((p, rest)) => ParseMore(rest, p);
      match parsed
      case None => None
      case Some((p, rest)) => if SkipSpace(rest) == [] then Some(Config(Field(p.url), Field(p.name))) else None
  }

  lemma KeysAreStrings()
    ensures ValidUtf8(KEY_URL) && ValidUtf8(KEY_NAME) && KEY_URL != KEY_NAME
  {
    hide ValidUtf8;
    AsciiIsValid(KEY_URL);
    AsciiIsValid(KEY_NAME);
    assert KEY_URL[0] != KEY_NAME[0];
  }

  // ----- Any layout of the object -----

  predicate Blank(w: seq<byte>) { forall i :: 0 <= i < |w| ==> w[i] == 0x20 || w[i] == 0x09 || w[i] == 0x0A || w[i] == 0x0D }

  /** A member with the whitespace around its parts. */
  datatype Item = Item(before: seq<byte>, key: seq<byte>, mid: seq<byte>, mid2: seq<byte>, value: Option<seq<byte>>, after: seq<byte>)

  predicate ValidItem(m: Item) {
    && Blank(m.before) && Blank(m.mid) && Blank(m.mid2) && Blank(m.after)
    && ValidUtf8(m.key) && (m.value.Some? ==> ValidUtf8(m.value.value))
  }

  function Render(m: Item): seq<byte> {
    m.before + PrintString(m.key) + m.mid + [COLON] + m.mid2 + PrintValue(m.value) + m.after
  }

  function RenderAll(items: seq<Item>): seq<byte>
    requires items != []
  {
    if |items| == 1 then Render(items[0]) else Render(items[0]) + [COMMA] + RenderAll(items[1..])
  }

  /** The values given for a field, in order. */
  function ValuesOf(items: seq<Item>, key: seq<byte>): seq<Option<seq<byte>>> {
    if items == [] then [] else (if items[0].key == key then [items[0].value] else []) + ValuesOf(items[1..], key)
  }

  lemma {:induction false} SkipBlank(w: seq<byte>, s: seq<byte>)
    requires Blank(w) && (s != [] ==> s[0] > 0x20)
    ensures SkipSpace(w + s) == s
  {
    if w == [] {
      assert w + s == s;
    } else {
      SkipBlank(w[1..], s);
      assert (w + s)[1..] == w[1..] + s;
    }
  }

  lemma ReadsItem(m: Item, rest: seq<byte>, p: Partial)
    requires ValidItem(m)
    ensures ParseMember(Render(m) + rest, p) ==
      match Store(p, m.key, m.value) case None => None case Some(p') => Some((p', m.after + rest))
  {
    hide Store, ValidUtf8, EscapeAll, ParseString, ParseValue, SkipSpace;
    var tail := PrintValue(m.value) + (m.after + rest);
    var colon := [COLON] + (m.mid2 + tail);
    var key := PrintString(m.key) + (m.mid + colon);
    assert Render(m) + rest == m.before + key;
    SkipBlank(m.before, key);
    ReadsString(m.key, m.mid + colon);
    SkipBlank(m.mid, colon);
    assert colon[1..] == m.mid2 + tail;
    SkipBlank(m.mid2, tail);
    ReadsValue(m.value, m.after + rest);
  }

  function StoreAll(p: Partial, items: seq<Item>): Option<Partial>
    decreases |items|
  {
    if items == [] then Some(p)
    else match Store(p, items[0].key, items[0].value) case None => None case Some(p') => StoreAll(p', items[1..])
  }

  /** The object's members from the second on, up to its closing brace. */
  lemma {:induction false} ReadsMore(items: seq<Item>, after: seq<byte>, rest: seq<byte>, p: Partial)
    requires Blank(after) && forall i :: 0 <= i < |items| ==> ValidItem(items[i])
    ensures var text := after + (if items == [] then [] else [COMMA] + RenderAll(items)) + [CLOSE] + rest;
      ParseMore(text, p) == match StoreAll(p, items) case None => None case Some(p') => Some((p', rest))
    decreases |items|
  {
    hide Store, ParseMember, SkipSpace, ValidItem, Render;
    if items == [] {
      var close := [CLOSE] + rest;
      assert after + [] + [CLOSE] + rest == after + close;
      SkipBlank(after, close);
      assert close[1..] == rest;
    } else {
      var m, more := items[0], items[1..];
      var next := (if more == [] then [] else [COMMA] + RenderAll(more)) + [CLOSE] + rest;
      var comma := [COMMA] + (Render(m) + next);
      assert after + ([COMMA] + RenderAll(items)) + [CLOSE] + rest == after + comma;
      SkipBlank(after, comma);
      assert comma[1..] == Render(m) + next;
      ReadsItem(m, next, p);
      match Store(p, m.key, m.value)
      case None =>
      case Some(p') =>
        AfterIsBlank(m);
        ReadsMore(more, m.after, rest, p');
        assert m.after + (if more == [] then [] else [COMMA] + RenderAll(more)) + [CLOSE] + rest == m.after + next;
    }
  }

  lemma AfterIsBlank(m: Item)
    requires ValidItem(m)
    ensures Blank(m.before) && Blank(m.after)
  {
  }

  /** Storing fails exactly when a field is given twice. */
  lemma {:induction false} StoreAllExact(p: Partial, items: seq<Item>)
    ensures var urls, names := ValuesOf(items, KEY_URL), ValuesOf(items, KEY_NAME);
      if (urls == [] || (p.url == None && |urls| == 1)) && (names == [] || (p.name == None && |names| == 1)) then
        StoreAll(p, items) == Some(Partial(if urls == [] then p.url else Some(urls[0]), if names == [] then p.name else Some(names[0])))
      else StoreAll(p, items) == None
    decreases |items|
  {
    if items != [] {
      KeysAreStrings();
      var m := items[0];
      match Store(p, m.key, m.value)
      case None =>
      case Some(p') => StoreAllExact(p', items[1..]);
    }
  }

  /**
   * Whatever whitespace, order and unknown members an object has: it is read as the config with the values given for
   * the two fields, none for a field that is not given, and is refused exactly when a field is given twice or something
   * but whitespace follows.
   */
  lemma ParseAnyLayout(before: seq<byte>, items: seq<Item>, after: seq<byte>)
    requires Blank(before) && items != [] && forall i :: 0 <= i < |items| ==> ValidItem(items[i])
    ensures var urls, names := ValuesOf(items, KEY_URL), ValuesOf(items, KEY_NAME);
      Parse(before + [OPEN] + RenderAll(items) + [CLOSE] + after) ==
        if |urls| > 1 || |names| > 1 || !Blank(after) then None
        else Some(Config(if urls == [] then None else urls[0], if names == [] then None else names[0]))
  {
    hide ValuesOf, Store, StoreAll, ParseMember, ParseMore, SkipSpace, ValidItem, Render, Parse;
    var m, more := items[0], items[1..];
    var next := (if more == [] then [] else [COMMA] + RenderAll(more)) + [CLOSE] + after;
    assert before + [OPEN] + RenderAll(items) + [CLOSE] + after == before + ([OPEN] + (Render(m) + next));
    StoreAllExact(Partial(None, None), items);
    FirstStored(Partial(None, None), items);
    ParsesFirst(before, m, next);
    match Store(Partial(None, None), m.key, m.value)
    case None =>
    case Some(p') =>
      AfterIsBlank(m);
      ReadsMore(more, m.after, after, p');
      assert m.after + (if more == [] then [] else [COMMA] + RenderAll(more)) + [CLOSE] + after == m.after + next;
      SkipsAll(after);
  }

  lemma {:induction false} SkipsAll(w: seq<byte>)
    ensures SkipSpace(w) == [] <==> Blank(w)
  {
    if w != [] { SkipsAll(w[1..]); }
  }

  /** Up to and including its first member. */
  lemma ParsesFirst(before: seq<byte>, m: Item, next: seq<byte>)
    requires Blank(before) && ValidItem(m)
    ensures Parse(before + ([OPEN] + (Render(m) + next))) ==
      match Store(Partial(None, None), m.key, m.value)
      case None => None
      case Some(p) =>
        match ParseMore(m.after + next, p)
        case None => None
        case Some((p', rest)) => if SkipSpace(rest) == [] then Some(Config(Field(p'.url), Field(p'.name))) else None
  {
    hide Store, ParseMember, ParseMore, SkipSpace, ValidUtf8, EscapeAll, Render;
    OpensWithMember(before, m, next);
    ReadsItem(m.(before := []), next, Partial(None, None));
  }

  lemma FirstStored(p: Partial, items: seq<Item>)
    requires items != []
    ensures StoreAll(p, items) == match Store(p, items[0].key, items[0].value) case None => None case Some(p') => StoreAll(p', items[1..])
  {
  }

  /** The object opens, and after whitespace its first member follows. */
  lemma OpensWithMember(before: seq<byte>, m: Item, next: seq<byte>)
    requires Blank(before) && ValidItem(m)
    ensures var s := SkipSpace(before + ([OPEN] + (Render(m) + next)));
      && s == [OPEN] + (Render(m) + next) && s[1..] == Render(m) + next
      && SkipSpace(s[1..]) == Render(m.(before := [])) + next && (Render(m.(before := [])) + next)[0] == QUOTE
  {
    hide SkipSpace, ValidUtf8, EscapeAll;
    var inner := Render(m.(before := [])) + next;
    SkipBlank(before, [OPEN] + (Render(m) + next));
    assert Render(m) + next == m.before + inner;
    SkipBlank(m.before, inner);
  }

  /** Parsing undoes printing. */
  lemma ParsePrint(c: Config)
    requires WellFormed(c)
    ensures Parse(Print(c)) == Some(c)
  {
    hide ValidUtf8, Parse, PrintString, PrintValue;
    KeysAreStrings();
    var url, name := Item([], KEY_URL, [], [], c.serverUrl, []), Item([], KEY_NAME, [], [], c.deviceName, []);
    var items := [url, name];
    assert items[1..] == [name] && [name][1..] == [];
    assert forall key :: ValuesOf([name], key) == (if key == KEY_NAME then [c.deviceName] else []) + ValuesOf([], key);
    assert ValuesOf([], KEY_URL) == [] && ValuesOf([], KEY_NAME) == [];
    assert ValuesOf(items, KEY_URL) == [c.serverUrl] && ValuesOf(items, KEY_NAME) == [c.deviceName];
    assert Render(url) == PrintMember(KEY_URL, c.serverUrl) && Render(name) == PrintMember(KEY_NAME, c.deviceName);
    assert Print(c) == [] + [OPEN] + RenderAll(items) + [CLOSE] + [];
    ParseAnyLayout([], items, []);
  }

  lemma PrintHasNoNul(c: Config)
    ensures NoNul(Print(c))
  {
    hide EscapeAll;
    EscapedHasNoNul(KEY_URL);
    EscapedHasNoNul(KEY_NAME);
    ValueHasNoNul(c.serverUrl);
    ValueHasNoNul(c.deviceName);
    assert NoNul(PrintMember(KEY_URL, c.serverUrl)) && NoNul(PrintMember(KEY_NAME, c.deviceName));
  }

  // ----- The slot -----

  /** `to_slot_bytes`; None when the JSON does not fit. */
  function ToSlot(c: Config): (r: Option<seq<byte>>)
    ensures r.Some? ==> |r.value| == CONFIG_SLOT_SIZE
  {
    var json := Print(c);
    if |json| > CONFIG_SLOT_SIZE then None else Some(json + Zeros(CONFIG_SLOT_SIZE - |json|))
  }

  /** The part before the first NUL. */
  function UntilNul(s: seq<byte>): seq<byte> {
    if s == [] || s[0] == 0 then [] else [s[0]] + UntilNul(s[1..])
  }

  /** `from_slot_bytes`. */
  function FromSlot(s: seq<byte>): Option<Config> { Parse(UntilNul(s)) }

  lemma {:induction false} UntilNulOfPadded(json: seq<byte>, n: nat)
    requires NoNul(json)
    ensures UntilNul(json + Zeros(n)) == json
  {
    if json == [] {
      assert [] + Zeros(n) == Zeros(n);
    } else {
      UntilNulOfPadded(json[1..], n);
      assert (json + Zeros(n))[1..] == json[1..] + Zeros(n);
    }
  }

  /** Reading a slot undoes writing it, also when the JSON fills it to the last byte. */
  lemma SlotRoundTrip(c: Config)
    requires WellFormed(c) && ToSlot(c).Some?
    ensures FromSlot(ToSlot(c).value) == Some(c)
  {
    hide Parse, Print, ValidUtf8;
    PrintHasNoNul(c);
    UntilNulOfPadded(Print(c), CONFIG_SLOT_SIZE - |Print(c)|);
    ParsePrint(c);
  }

  // ----- The binary -----

  predicate MarkerAt(data: seq<byte>, i: nat) {
    i + MAGIC_LEN <= |data| && data[i..i + MAGIC_LEN] == CONFIG_MAGIC
  }

  /** `find_subslice` for the marker: the first window equal to it, from `i` on. */
  function FindMarker(data: seq<byte>, i: nat): (r: Option<nat>)
    ensures r.Some? ==> r.value >= i && MarkerAt(data, r.value) && forall j :: i <= j < r.value ==> !MarkerAt(data, j)
    ensures r == None ==> forall j :: i <= j ==> !MarkerAt(data, j)
    decreases |data| - i
  {
    if i + MAGIC_LEN > |data| then None
    else if MarkerAt(data, i) then Some(i)
    else FindMarker(data, i + 1)
  }

  datatype Found = Absent | Unreadable | Found(config: Config)

  /** `find_in_binary`: Ok(None), an error, or Ok(Some). */
  function FindInBinary(data: seq<byte>): Found {
    match FindMarker(data, 0)
    case None => Absent
    case Some(pos) =>
      var start := pos + MAGIC_LEN;
      var end := if start + CONFIG_SLOT_SIZE < |data| then start + CONFIG_SLOT_SIZE else |data|;
      if end <= start then Absent
      else
        match FromSlot(data[start..end])
        case None => Unreadable
        case Some(c) => Found(c)
  }

  datatype Patch = NoMarker | Truncated | TooLong | Patched(bytes: seq<byte>)

  /** `patch_binary`. */
  function PatchBinary(c: Config, template: seq<byte>): Patch {
    match FindMarker(template, 0)
    case None => NoMarker
    case Some(pos) =>
      var start := pos + MAGIC_LEN;
      var end := start + CONFIG_SLOT_SIZE;
      if end > |template| then Truncated
      else
        match ToSlot(c)
        case None => TooLong
        case Some(slot) => Patched(template[..start] + slot + template[end..])
  }

  /** Patching keeps the length, every byte outside the slot, and the position of the first marker. */
  lemma PatchKeepsTheRest(c: Config, template: seq<byte>)
    requires PatchBinary(c, template).Patched?
    ensures var out, pos := PatchBinary(c, template).bytes, FindMarker(template, 0).value;
      && |out| == |template| && pos + TOTAL_LEN <= |template|
      && (forall i :: 0 <= i < |out| && !(pos + MAGIC_LEN <= i < pos + TOTAL_LEN) ==> out[i] == template[i])
      && out[pos + MAGIC_LEN..pos + TOTAL_LEN] == ToSlot(c).value
      && FindMarker(out, 0) == Some(pos)
  {
    hide ToSlot, FindMarker, MarkerAt;
    var out, pos := PatchBinary(c, template).bytes, FindMarker(template, 0).value;
    assert out[..pos + MAGIC_LEN] == template[..pos + MAGIC_LEN];
    SameFirstMarker(template, out, pos);
  }

  /** The first marker depends only on the bytes up to its end. */
  lemma SameFirstMarker(template: seq<byte>, out: seq<byte>, pos: nat)
    requires FindMarker(template, 0) == Some(pos) && pos + MAGIC_LEN <= |template|
    requires |out| == |template| && out[..pos + MAGIC_LEN] == template[..pos + MAGIC_LEN]
    ensures FindMarker(out, 0) == Some(pos)
  {
    hide MarkerAt;
    forall j | 0 <= j <= pos ensures MarkerAt(out, j) == MarkerAt(template, j) { SameMarker(template, out, pos, j); }
    FirstMarker(out, pos);
  }

  lemma SameMarker(template: seq<byte>, out: seq<byte>, pos: nat, j: nat)
    requires j <= pos && pos + MAGIC_LEN <= |template| == |out| && out[..pos + MAGIC_LEN] == template[..pos + MAGIC_LEN]
    ensures MarkerAt(out, j) == MarkerAt(template, j)
  {
    assert out[j..j + MAGIC_LEN] == out[..pos + MAGIC_LEN][j..j + MAGIC_LEN];
    assert template[j..j + MAGIC_LEN] == template[..pos + MAGIC_LEN][j..j + MAGIC_LEN];
  }

  lemma FirstMarker(data: seq<byte>, pos: nat)
    requires MarkerAt(data, pos) && forall j :: 0 <= j < pos ==> !MarkerAt(data, j)
    ensures FindMarker(data, 0) == Some(pos)
  {
    hide MarkerAt;
  }

  /** The first marker in the data is at `pos`. */
  ghost predicate FirstMarkerAt(data: seq<byte>, pos: nat) {
    MarkerAt(data, pos) && forall j: nat :: j < pos ==> !MarkerAt(data, j)
  }

  /**
   * Patching succeeds exactly when the template has a marker, the first one is followed by a whole slot, and the JSON
   * fits into the slot; otherwise the refusal says which of these failed first.
   */
  lemma PatchSucceedsExactly(c: Config, template: seq<byte>)
    ensures PatchBinary(c, template) == NoMarker <==> forall j: nat :: !MarkerAt(template, j)
    ensures PatchBinary(c, template) == Truncated <==> exists pos: nat :: FirstMarkerAt(template, pos) && |template| < pos + TOTAL_LEN
    ensures PatchBinary(c, template) == TooLong <==>
      |Print(c)| > CONFIG_SLOT_SIZE && exists pos: nat :: FirstMarkerAt(template, pos) && pos + TOTAL_LEN <= |template|
    ensures PatchBinary(c, template).Patched? <==>
      |Print(c)| <= CONFIG_SLOT_SIZE && exists pos: nat :: FirstMarkerAt(template, pos) && pos + TOTAL_LEN <= |template|
  {
    hide MarkerAt, Print;
    var found := FindMarker(template, 0);
    if found.Some? {
      assert FirstMarkerAt(template, found.value);
      forall pos: nat | FirstMarkerAt(template, pos) ensures pos == found.value {
        assert MarkerAt(template, pos) && MarkerAt(template, found.value);
      }
    }
  }

  /** In particular a JSON that fills the slot to its last byte is patched in and found again. */
  lemma FullSlotWorks(c: Config, template: seq<byte>, pos: nat)
    requires WellFormed(c) && |Print(c)| == CONFIG_SLOT_SIZE
    requires FirstMarkerAt(template, pos) && pos + TOTAL_LEN <= |template|
    ensures PatchBinary(c, template).Patched? && FindInBinary(PatchBinary(c, template).bytes) == Found(c)
  {
    hide Print, WellFormed, PatchBinary, FindInBinary, FirstMarkerAt;
    PatchSucceedsExactly(c, template);
    PatchThenFind(c, template);
  }

  /** And there are such configs. */
  lemma FullSlotExists()
    ensures exists c :: WellFormed(c) && |Print(c)| == CONFIG_SLOT_SIZE
  {
    hide EscapeAll, ValidUtf8;
    var url := Letters(4060);
    var c := Config(Some(url), None);
    EscapedLetters(4060);
    AsciiIsValid(url);
    PlainKeys();
    assert |PrintMember(KEY_URL, Some(url))| == 4075 && |PrintMember(KEY_NAME, None)| == 18;
    assert |Print(c)| == CONFIG_SLOT_SIZE;
  }

  function Letters(n: nat): (s: seq<byte>)
    ensures |s| == n && forall i :: 0 <= i < n ==> s[i] == 0x61
  {
    seq(n, _ => 0x61)
  }

  lemma {:induction false} EscapedLetters(n: nat)
    ensures |EscapeAll(Letters(n))| == n
  {
    if n > 0 {
      assert Letters(n)[1..] == Letters(n - 1);
      EscapedLetters(n - 1);
    }
  }

  /** Text without quotes, backslashes and controls is printed as it is. */
  lemma {:induction false} PlainText(s: seq<byte>)
    requires forall i :: 0 <= i < |s| ==> s[i] >= 0x20 && s[i] != QUOTE && s[i] != BACKSLASH
    ensures EscapeAll(s) == s
  {
    if s != [] {
      PlainText(s[1..]);
      assert s == [s[0]] + s[1..];
    }
  }

  lemma PlainKeys()
    ensures EscapeAll(KEY_URL) == KEY_URL && EscapeAll(KEY_NAME) == KEY_NAME
  {
    hide EscapeAll;
    PlainText(KEY_URL);
    PlainText(KEY_NAME);
  }

  /** Whenever patching succeeds, on any template, the patched binary yields exactly the config it was patched with. */
  lemma PatchThenFind(c: Config, template: seq<byte>)
    requires WellFormed(c) && PatchBinary(c, template).Patched?
    ensures FindInBinary(PatchBinary(c, template).bytes) == Found(c)
  {
    hide Parse, ValidUtf8, Print, FromSlot;
    PatchKeepsTheRest(c, template);
    SlotRoundTrip(c);
  }

  /** Patching a patched binary is patching the original. */
  lemma PatchTwice(c: Config, c2: Config, template: seq<byte>)
    requires PatchBinary(c, template).Patched?
    ensures PatchBinary(c2, PatchBinary(c, template).bytes) == PatchBinary(c2, template)
  {
    hide ToSlot;
    PatchKeepsTheRest(c, template);
    var out, pos := PatchBinary(c, template).bytes, FindMarker(template, 0).value;
    assert out[..pos + MAGIC_LEN] == template[..pos + MAGIC_LEN];
    assert out[pos + TOTAL_LEN..] == template[pos + TOTAL_LEN..];
  }

  /** The slot compiled into every build: the marker and nothing but NULs. */
  function MarkerSlot(): seq<byte> { CONFIG_MAGIC + Zeros(CONFIG_SLOT_SIZE) }

  /** Whatever surrounds the slot of an un-patched build, its marker is found and the slot does not parse: an error. */
  lemma UnpatchedIsUnreadable(data: seq<byte>, pos: nat)
    requires FindMarker(data, 0) == Some(pos) && pos + TOTAL_LEN <= |data| && data[pos..pos + TOTAL_LEN] == MarkerSlot()
    ensures FindInBinary(data) == Unreadable
  {
    hide FindMarker;
    var slot := data[pos + MAGIC_LEN..pos + TOTAL_LEN];
    assert slot == data[pos..pos + TOTAL_LEN][MAGIC_LEN..] == Zeros(CONFIG_SLOT_SIZE);
    assert slot[0] == 0;
  }

  /** A config is absent exactly when there is no marker, or the first one ends the data. */
  lemma AbsentExactly(data: seq<byte>)
    ensures FindInBinary(data) == Absent <==>
      (forall j: nat :: !MarkerAt(data, j)) || (exists j: nat :: MarkerAt(data, j) && j + MAGIC_LEN == |data| && forall i: nat :: i < j ==> !MarkerAt(data, i))
  {
    hide FromSlot, MarkerAt;
    var found := FindMarker(data, 0);
    if found.Some? {
      assert MarkerAt(data, found.value) && found.value + MAGIC_LEN <= |data| by { MarkerFits(data, found.value); }
    }
  }

  lemma MarkerFits(data: seq<byte>, i: nat)
    requires MarkerAt(data, i)
    ensures i + MAGIC_LEN <= |data|
  {
  }

  // ----- The buffers filled in place -----

  /** `to_slot_bytes`. */
  method FillSlot(c: Config) returns (slot: Option<array<byte>>)
    ensures slot.Some? == ToSlot(c).Some?
    ensures slot.Some? <==> |Print(c)| <= CONFIG_SLOT_SIZE
    ensures slot.Some? ==> fresh(slot.value) && slot.value[..] == ToSlot(c).value
  {
    hide Print;
    var json := Print(c);
    if |json| > CONFIG_SLOT_SIZE {
      return None;
    }
    var buf := new byte[CONFIG_SLOT_SIZE](_ => 0);
    for i := 0 to |json|
      invariant buf[..i] == json[..i]
      invariant buf[i..] == Zeros(CONFIG_SLOT_SIZE - i)
    {
      buf[i] := json[i];
    }
    assert buf[..] == buf[..|json|] + buf[|json|..];
    return Some(buf);
  }

  /** `patch_binary`: a copy of the template with its slot overwritten. */
  method PatchCopy(c: Config, template: array<byte>) returns (result: Patch, patched: array<byte>)
    ensures result == PatchBinary(c, template[..])
    ensures result.Patched? ==> fresh(patched) && patched[..] == result.bytes
    ensures template[..] == old(template[..])
  {
    hide ToSlot;
    patched := new byte[template.Length](i requires 0 <= i < template.Length reads template => template[i]);
    ghost var t := template[..];
    assert patched[..] == t;
    var pos := FindMarker(template[..], 0);
    if pos == None {
      return NoMarker, patched;
    }
    var start := pos.value + MAGIC_LEN;
    var end := start + CONFIG_SLOT_SIZE;
    if end > template.Length {
      return Truncated, patched;
    }
    var slot := FillSlot(c);
    if slot == None {
      return TooLong, patched;
    }
    Overwrite(patched, start, slot.value);
    result := Patched(patched[..]);
  }

  /** `copy_from_slice` on the part of `buf` from `start` on. */
  method Overwrite(buf: array<byte>, start: nat, bytes: array<byte>)
    requires start + bytes.Length <= buf.Length && buf != bytes
    modifies buf
    ensures buf[..] == old(buf[..start]) + bytes[..] + old(buf[start + bytes.Length..])
  {
    ghost var before, after := buf[..start], buf[start + bytes.Length..];
    for i := 0 to bytes.Length
      invariant buf[..start] == before && buf[start + bytes.Length..] == after
      invariant buf[start..start + i] == bytes[..i]
    {
      buf[start + i] := bytes[i];
    }
    assert buf[..] == buf[..start] + buf[start..start + bytes.Length] + buf[start + bytes.Length..];
  }

  /** `build_marker_slot`. */
  method BuildMarkerSlot() returns (buf: array<byte>)
    ensures fresh(buf) && buf[..] == MarkerSlot()
  {
    buf := new byte[TOTAL_LEN](_ => 0);
    var i := 0;
    while i < MAGIC_LEN
      invariant i <= MAGIC_LEN
      invariant buf[..i] == CONFIG_MAGIC[..i]
      invariant buf[i..] == Zeros(TOTAL_LEN - i)
    {
      buf[i] := CONFIG_MAGIC[i];
      i := i + 1;
    }
    assert buf[..] == buf[..MAGIC_LEN] + buf[MAGIC_LEN..];
  }
}
