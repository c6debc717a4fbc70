/** SudokuSettings and its UnmarshalJSON (internal/panel/client.go). */
module Settings {
  import opened Panel
  import opened Text
  import opened Json

  datatype Mask = Mask(disable: Option<bool>, mode: string, tls: Option<bool>, host: string, maskHost: string,
                       pathRoot: string, multiplex: string)

  /** A nil slice of tables and an empty one are both []. */
  datatype Settings = Settings(masterPublicKey: string, masterPrivateKey: string, aead: string, aeadMethod: string,
                               ascii: string, tableType: string, paddingMin: int, paddingMax: int,
                               enablePureDownlink: Option<bool>, multiplex: string, fallbackAddress: string,
                               suspiciousAction: string, customTable: string, customTables: seq<string>, mask: Mask)

  function FirstNonEmpty(values: seq<string>): string {
    if values == [] then ""
    else if TrimSpace(values[0]) != "" then TrimSpace(values[0])
    else FirstNonEmpty(values[1..])
  }

  function FirstNonZero(a: int, b: int): int { if a != 0 then a else b }

  function FirstFlag(a: Option<bool>, b: Option<bool>): Option<bool> { if a.Some? then a else b }

  /** The strings of `items` that trimming leaves non-empty, trimmed. */
  function Cleaned(items: seq<string>): (r: seq<string>)
    ensures forall s <- r :: s != "" && Trimmed(s)
  {
    if items == [] then []
    else
      var rest := Cleaned(items[..|items| - 1]);
      var text := TrimSpace(items[|items| - 1]);
      if text == "" then rest else rest + [text]
  }

  predicate Separator(c: char) { c == ',' || c == '\n' || c == '\r' || c == '\t' || c == ' ' }

  /** strings.FieldsFunc: the maximal runs of characters that are no separators; `field` is the run so far. */
  function FieldsFrom(s: string, field: string): seq<string>
    decreases |s|
  {
    if s == "" then (if field == "" then [] else [field])
    else if Separator(s[0]) then (if field == "" then [] else [field]) + FieldsFrom(s[1..], "")
    else FieldsFrom(s[1..], field + [s[0]])
  }

  /** fmt.Sprint of a decoded value; `sprint` says how values other than strings print. */
  function Sprint(sprint: Json -> string, j: Json): string { if j.JStr? then j.text else sprint(j) }

  function ToStringSlice(sprint: Json -> string, j: Json): seq<string> {
    match j
    case JArr(items) => Cleaned(seq(|items|, i requires 0 <= i < |items| => Sprint(sprint, items[i])))
    case JStr(s) => Cleaned(FieldsFrom(s, ""))
    case _ => []
  }

  function Tables(sprint: Json -> string, a: Json, b: Json): seq<string> {
    if ToStringSlice(sprint, a) != [] then ToStringSlice(sprint, a) else ToStringSlice(sprint, b)
  }

  // ---- decoding ----

  predicate MaskOk(j: Json) {
    IsObject(j) &&
    var o := Members(j);
    && FlagOk(o, Disable) && StringOk(o, Mode) && FlagOk(o, Tls) && StringOk(o, Host) && StringOk(o, MaskHost)
    && StringOk(o, MaskHostK) && StringOk(o, PathRoot) && StringOk(o, PathRootK) && StringOk(o, Multiplex)
  }

  predicate SettingsOk(j: Json) {
    IsObject(j) &&
    var o := Members(j);
    && StringOk(o, MasterPublicKey) && StringOk(o, MasterPrivateKey) && StringOk(o, Aead) && StringOk(o, AeadMethod)
    && StringOk(o, AeadMethodK) && StringOk(o, Ascii) && StringOk(o, TableType) && StringOk(o, TableTypeK)
    && IntOk(o, PaddingMin) && IntOk(o, PaddingMinK) && IntOk(o, PaddingMax) && IntOk(o, PaddingMaxK)
    && FlagOk(o, EnablePureDownlink) && FlagOk(o, EnablePureDownlinkK) && StringOk(o, Multiplex)
    && StringOk(o, FallbackAddress) && StringOk(o, SuspiciousAction) && StringOk(o, CustomTable)
    && StringOk(o, CustomTableK) && MaskOk(Get(o, HttpMask))
  }

  function MaskOf(j: Json): Mask {
    var o := Members(j);
    var host := FirstNonEmpty([StringAt(o, MaskHost), StringAt(o, MaskHostK), StringAt(o, Host)]);
    Mask(FlagAt(o, Disable), TrimSpace(StringAt(o, Mode)), FlagAt(o, Tls), host, host,
         FirstNonEmpty([StringAt(o, PathRoot), StringAt(o, PathRootK)]), TrimSpace(StringAt(o, Multiplex)))
  }

  /** What UnmarshalJSON makes of a document it accepts. */
  function SettingsOf(sprint: Json -> string, j: Json): Settings {
    var o := Members(j);
    var aead := FirstNonEmpty([StringAt(o, AeadMethod), StringAt(o, AeadMethodK), StringAt(o, Aead)]);
    var ascii := FirstNonEmpty([StringAt(o, TableType), StringAt(o, TableTypeK), StringAt(o, Ascii)]);
    Settings(TrimSpace(StringAt(o, MasterPublicKey)), TrimSpace(StringAt(o, MasterPrivateKey)), aead, aead, ascii, ascii,
             FirstNonZero(IntAt(o, PaddingMin), IntAt(o, PaddingMinK)), FirstNonZero(IntAt(o, PaddingMax), IntAt(o, PaddingMaxK)),
             FirstFlag(FlagAt(o, EnablePureDownlink), FlagAt(o, EnablePureDownlinkK)),
             TrimSpace(StringAt(o, Multiplex)), TrimSpace(StringAt(o, FallbackAddress)), TrimSpace(StringAt(o, SuspiciousAction)),
             FirstNonEmpty([StringAt(o, CustomTable), StringAt(o, CustomTableK)]),
             Tables(sprint, Get(o, CustomTables), Get(o, CustomTablesK)), MaskOf(Get(o, HttpMask)))
  }

  class SudokuSettings {
    var value: Settings

    /** A document that does not decode leaves the settings alone. */
    method UnmarshalJSON(sprint: Json -> string, data: Json) returns (ok: bool)
      modifies this
      ensures ok == SettingsOk(data) && value == if ok then SettingsOf(sprint, data) else old(value)
    {
      hide FirstNonEmpty, FirstNonZero, TrimSpace, StringAt, IntAt, FlagAt, Get, Members, Tables, SettingsOk, MaskOf;
      ok := SettingsOk(data);
      if !ok { return; }
      var raw, s := Members(data), value;
      s := s.(masterPublicKey := TrimSpace(StringAt(raw, MasterPublicKey)));
      s := s.(masterPrivateKey := TrimSpace(StringAt(raw, MasterPrivateKey)));
      s := s.(aead := FirstNonEmpty([StringAt(raw, AeadMethod), StringAt(raw, AeadMethodK), StringAt(raw, Aead)]));
      s := s.(aeadMethod := s.aead);
      s := s.(ascii := FirstNonEmpty([StringAt(raw, TableType), StringAt(raw, TableTypeK), StringAt(raw, Ascii)]));
      s := s.(tableType := s.ascii);
      s := s.(paddingMin := FirstNonZero(IntAt(raw, PaddingMin), IntAt(raw, PaddingMinK)));
      s := s.(paddingMax := FirstNonZero(IntAt(raw, PaddingMax), IntAt(raw, PaddingMaxK)));
      s := s.(enablePureDownlink := FlagAt(raw, EnablePureDownlink));
      if s.enablePureDownlink.None? { s := s.(enablePureDownlink := FlagAt(raw, EnablePureDownlinkK)); }
      s := s.(multiplex := TrimSpace(StringAt(raw, Multiplex)));
      s := s.(fallbackAddress := TrimSpace(StringAt(raw, FallbackAddress)));
      s := s.(suspiciousAction := TrimSpace(StringAt(raw, SuspiciousAction)));
      s := s.(customTable := FirstNonEmpty([StringAt(raw, CustomTable), StringAt(raw, CustomTableK)]));
      s := s.(customTables := Tables(sprint, Get(raw, CustomTables), Get(raw, CustomTablesK)));
      s := s.(mask := MaskOf(Get(raw, HttpMask)));
      value := s;
    }
  }

  // ---- encoding ----

  function JsonOfMask(m: Mask): Json {
    JObj(map[Disable := OfFlag(m.disable), Mode := JStr(m.mode), Tls := OfFlag(m.tls), Host := JStr(m.host),
             MaskHost := JStr(m.maskHost), PathRoot := JStr(m.pathRoot), Multiplex := JStr(m.multiplex)])
  }

  function JsonOfTables(tables: seq<string>): Json {
    if tables == [] then JNull else JArr(seq(|tables|, i requires 0 <= i < |tables| => JStr(tables[i])))
  }

  /** json.Marshal, which knows nothing of the aliases. */
  function JsonOfSettings(s: Settings): Json {
    JObj(map[MasterPublicKey := JStr(s.masterPublicKey), MasterPrivateKey := JStr(s.masterPrivateKey),
             Aead := JStr(s.aead), AeadMethod := JStr(s.aeadMethod), Ascii := JStr(s.ascii), TableType := JStr(s.tableType),
             PaddingMin := OfInt(s.paddingMin), PaddingMax := OfInt(s.paddingMax),
             EnablePureDownlink := OfFlag(s.enablePureDownlink), Multiplex := JStr(s.multiplex),
             FallbackAddress := JStr(s.fallbackAddress), SuspiciousAction := JStr(s.suspiciousAction),
             CustomTable := JStr(s.customTable), CustomTables := JsonOfTables(s.customTables), HttpMask := JsonOfMask(s.mask)])
  }

  /** The values UnmarshalJSON can produce: trimmed, with the two fields of each pair of aliases equal. */
  predicate Canonical(s: Settings) {
    && Trimmed(s.masterPublicKey) && Trimmed(s.masterPrivateKey) && Trimmed(s.aead) && s.aeadMethod == s.aead
    && Trimmed(s.ascii) && s.tableType == s.ascii && InRange(s.paddingMin) && InRange(s.paddingMax)
    && Trimmed(s.multiplex) && Trimmed(s.fallbackAddress) && Trimmed(s.suspiciousAction) && Trimmed(s.customTable)
    && (forall t <- s.customTables :: t != "" && Trimmed(t))
    && Trimmed(s.mask.mode) && Trimmed(s.mask.host) && s.mask.maskHost == s.mask.host && Trimmed(s.mask.pathRoot)
    && Trimmed(s.mask.multiplex)
  }

  lemma {:induction false} FirstNonEmptyTrimmed(values: seq<string>)
    ensures Trimmed(FirstNonEmpty(values))
  {
    if values != [] { FirstNonEmptyTrimmed(values[1..]); }
  }

  /** A trimmed value is the first of the lists its encoding reads back as. */
  lemma FirstOfAliases(v: string)
    requires Trimmed(v)
    ensures FirstNonEmpty([v, "", v]) == v && FirstNonEmpty([v, ""]) == v
  {
    assert [v, "", v][1..] == ["", v] && ["", v][1..] == [v] && [v, ""][1..] == [""];
    assert FirstNonEmpty([v]) == v && FirstNonEmpty([""]) == "";
  }

  lemma {:induction false} CleanedFixed(items: seq<string>)
    requires forall s <- items :: s != "" && Trimmed(s)
    ensures Cleaned(items) == items
  {
    if items != [] {
      var n := |items| - 1;
      forall s <- items[..n] ensures s in items {}
      CleanedFixed(items[..n]);
      assert items[n] in items && items[..n] + [items[n]] == items;
    }
  }

  lemma TablesReadBack(sprint: Json -> string, tables: seq<string>)
    requires forall t <- tables :: t != "" && Trimmed(t)
    ensures Tables(sprint, JsonOfTables(tables), JNull) == tables
  {
    if tables != [] {
      var items := JsonOfTables(tables).items;
      assert seq(|items|, i requires 0 <= i < |items| => Sprint(sprint, items[i])) == tables;
      CleanedFixed(tables);
    }
  }

  lemma MaskIsCanonical(j: Json)
    ensures var m := MaskOf(j);
      Trimmed(m.mode) && Trimmed(m.host) && m.maskHost == m.host && Trimmed(m.pathRoot) && Trimmed(m.multiplex)
  {
    hide FirstNonEmpty, Trimmed, StringAt, FlagAt, Members;
    var o := Members(j);
    FirstNonEmptyTrimmed([StringAt(o, MaskHost), StringAt(o, MaskHostK), StringAt(o, Host)]);
    FirstNonEmptyTrimmed([StringAt(o, PathRoot), StringAt(o, PathRootK)]);
  }

  lemma DecodedIsCanonical(sprint: Json -> string, j: Json)
    requires SettingsOk(j)
    ensures Canonical(SettingsOf(sprint, j))
  {
    hide FirstNonEmpty, Trimmed, StringAt, FlagAt, MaskOf, MaskOk, TrimSpace;
    var o := Members(j);
    FirstNonEmptyTrimmed([StringAt(o, AeadMethod), StringAt(o, AeadMethodK), StringAt(o, Aead)]);
    FirstNonEmptyTrimmed([StringAt(o, TableType), StringAt(o, TableTypeK), StringAt(o, Ascii)]);
    FirstNonEmptyTrimmed([StringAt(o, CustomTable), StringAt(o, CustomTableK)]);
    MaskIsCanonical(Get(o, HttpMask));
  }

  // ---- which alias counts ----

  /** `r` is the first of the values that is not blank, trimmed, or empty when all are blank. */
  ghost predicate FirstGiven(values: seq<string>, r: string) {
    if r == "" then forall v <- values :: TrimSpace(v) == ""
    else exists i | 0 <= i < |values| :: TrimSpace(values[i]) == r && forall v <- values[..i] :: TrimSpace(v) == ""
  }

  lemma {:induction false} FirstNonEmptyIs(values: seq<string>)
    ensures FirstGiven(values, FirstNonEmpty(values))
  {
    hide TrimSpace;
    if values != [] {
      var rest, r := values[1..], FirstNonEmpty(values);
      assert values == [values[0]] + rest;
      if TrimSpace(values[0]) != "" {
        assert values[..0] == [];
      } else {
        FirstNonEmptyIs(rest);
        if r != "" {
          var i :| 0 <= i < |rest| && TrimSpace(rest[i]) == r && forall v <- rest[..i] :: TrimSpace(v) == "";
          assert values[..i + 1] == [values[0]] + rest[..i] && TrimSpace(values[i + 1]) == r;
        }
      }
    }
  }

  /** The name with underscores counts before the one with hyphens, and both before the old short one. */
  lemma TextAliases(sprint: Json -> string, o: Object)
    ensures var s := SettingsOf(sprint, JObj(o));
      && FirstGiven([StringAt(o, AeadMethod), StringAt(o, AeadMethodK), StringAt(o, Aead)], s.aead)
      && FirstGiven([StringAt(o, TableType), StringAt(o, TableTypeK), StringAt(o, Ascii)], s.ascii)
      && FirstGiven([StringAt(o, CustomTable), StringAt(o, CustomTableK)], s.customTable)
      && s.aeadMethod == s.aead && s.tableType == s.ascii
  {
    hide FirstNonEmpty, FirstGiven, StringAt, Tables, MaskOf, TrimSpace;
    FirstNonEmptyIs([StringAt(o, AeadMethod), StringAt(o, AeadMethodK), StringAt(o, Aead)]);
    FirstNonEmptyIs([StringAt(o, TableType), StringAt(o, TableTypeK), StringAt(o, Ascii)]);
    FirstNonEmptyIs([StringAt(o, CustomTable), StringAt(o, CustomTableK)]);
  }

  lemma MaskAliases(sprint: Json -> string, o: Object, m: Object)
    requires Get(o, HttpMask) == JObj(m)
    ensures var mask := SettingsOf(sprint, JObj(o)).mask;
      && FirstGiven([StringAt(m, MaskHost), StringAt(m, MaskHostK), StringAt(m, Host)], mask.maskHost) && mask.host == mask.maskHost
      && FirstGiven([StringAt(m, PathRoot), StringAt(m, PathRootK)], mask.pathRoot)
  {
    hide FirstNonEmpty, FirstGiven, StringAt, Tables, TrimSpace;
    FirstNonEmptyIs([StringAt(m, MaskHost), StringAt(m, MaskHostK), StringAt(m, Host)]);
    FirstNonEmptyIs([StringAt(m, PathRoot), StringAt(m, PathRootK)]);
  }

  /** An option with one spelling is read from the member of its own name. */
  lemma PlainOptions(sprint: Json -> string, o: Object, m: Object, t: string)
    requires Trimmed(t) && Get(o, HttpMask) == JObj(m)
    ensures var s := SettingsOf(sprint, JObj(o)); var given := JStr(t);
      && (Get(o, MasterPublicKey) == given ==> s.masterPublicKey == t) && (Get(o, MasterPrivateKey) == given ==> s.masterPrivateKey == t)
      && (Get(o, Multiplex) == given ==> s.multiplex == t) && (Get(o, FallbackAddress) == given ==> s.fallbackAddress == t)
      && (Get(o, SuspiciousAction) == given ==> s.suspiciousAction == t)
      && (Get(m, Mode) == given ==> s.mask.mode == t) && (Get(m, Multiplex) == given ==> s.mask.multiplex == t)
      && (Get(m, Disable).JBool? ==> s.mask.disable == Some(Get(m, Disable).flag))
      && (Get(m, Tls).JBool? ==> s.mask.tls == Some(Get(m, Tls).flag))
  {
    hide FirstNonEmpty, Tables, Trimmed;
  }

  /** Numbers that are not zero, flags and tables count in the same order; without the first name, the second does. */
  lemma ValueAliases(sprint: Json -> string, o: Object, i: int, tables: seq<string>)
    requires forall t <- tables :: t != "" && Trimmed(t)
    ensures var s := SettingsOf(sprint, JObj(o));
      && (i != 0 && Get(o, PaddingMin) == OfInt(i) ==> s.paddingMin == i)
      && (i != 0 && Get(o, PaddingMax) == OfInt(i) ==> s.paddingMax == i)
      && (Get(o, PaddingMin) in {JNull, OfInt(0)} && Get(o, PaddingMinK) == OfInt(i) ==> s.paddingMin == i)
      && (Get(o, PaddingMax) in {JNull, OfInt(0)} && Get(o, PaddingMaxK) == OfInt(i) ==> s.paddingMax == i)
      && (Get(o, EnablePureDownlink).JBool? ==> s.enablePureDownlink == Some(Get(o, EnablePureDownlink).flag))
      && (Get(o, EnablePureDownlink).JNull? && Get(o, EnablePureDownlinkK).JBool? ==> s.enablePureDownlink == Some(Get(o, EnablePureDownlinkK).flag))
      && (tables != [] && Get(o, CustomTables) == JsonOfTables(tables) ==> s.customTables == tables)
      && (Get(o, CustomTables).JNull? && Get(o, CustomTablesK) == JsonOfTables(tables) ==> s.customTables == tables)
  {
    hide FirstNonEmpty, StringAt, MaskOf, TrimSpace, Cleaned, Trimmed;
    ListRead(sprint, tables);
  }

  lemma ListRead(sprint: Json -> string, tables: seq<string>)
    requires forall t <- tables :: t != "" && Trimmed(t)
    ensures ToStringSlice(sprint, JsonOfTables(tables)) == tables
  {
    TablesReadBack(sprint, tables);
    assert ToStringSlice(sprint, JNull) == [];
  }

  // ---- tables given as one text ----

  const SEPARATORS := {',', '\n', '\r', '\t', ' '}

  predicate Field(s: string) { s != "" && forall c <- s :: c !in SEPARATORS }

  function Joined(fields: seq<string>, sep: char): string {
    if fields == [] then "" else if |fields| == 1 then fields[0] else fields[0] + [sep] + Joined(fields[1..], sep)
  }

  lemma {:induction false} FieldsSkip(word: string, rest: string, field: string)
    requires forall c <- word :: c !in SEPARATORS
    ensures FieldsFrom(word + rest, field) == FieldsFrom(rest, field + word)
  {
    if word == "" {
      assert word + rest == rest && field + word == field;
    } else {
      assert (word + rest)[1..] == word[1..] + rest && field + [word[0]] + word[1..] == field + word;
      FieldsSkip(word[1..], rest, field + [word[0]]);
    }
  }

  lemma {:induction false} FieldsOfJoined(fields: seq<string>, sep: char)
    requires sep in SEPARATORS && forall f <- fields :: Field(f)
    ensures FieldsFrom(Joined(fields, sep), "") == fields
  {
    if fields != [] {
      var head, tail := fields[0], fields[1..];
      assert Field(head) && fields == [head] + tail;
      forall f <- tail ensures f in fields {}
      if tail == [] {
        FieldsSkip(head, "", "");
        assert head + "" == head && "" + head == head;
      } else {
        var rest := [sep] + Joined(tail, sep);
        FieldsSkip(head, rest, "");
        assert head + rest == Joined(fields, sep) && "" + head == head && rest[1..] == Joined(tail, sep);
        FieldsOfJoined(tail, sep);
      }
    }
  }

  /** Table names in one text, split by any of the separators, configure what the list of the names does. */
  lemma TablesFromText(sprint: Json -> string, tables: seq<string>, sep: char)
    requires sep in SEPARATORS && forall t <- tables :: Field(t) && Trimmed(t)
    ensures Tables(sprint, JStr(Joined(tables, sep)), JNull) == tables == Tables(sprint, JsonOfTables(tables), JNull)
  {
    FieldsOfJoined(tables, sep);
    CleanedFixed(tables);
    TablesReadBack(sprint, tables);
  }

  lemma MaskReadsBack(m: Mask)
    requires Trimmed(m.mode) && Trimmed(m.host) && m.maskHost == m.host && Trimmed(m.pathRoot) && Trimmed(m.multiplex)
    ensures MaskOk(JsonOfMask(m)) && MaskOf(JsonOfMask(m)) == m
  {
    hide Trimmed;
    var o := Members(JsonOfMask(m));
    assert Get(o, MaskHostK) == JNull && Get(o, PathRootK) == JNull;
    FirstOfAliases(m.maskHost);
    FirstOfAliases(m.pathRoot);
  }

  // What a lookup in the encoding finds.

  ghost predicate EncodesKeys(o: Object, s: Settings) {
    && Get(o, MasterPublicKey) == JStr(s.masterPublicKey) && Get(o, MasterPrivateKey) == JStr(s.masterPrivateKey)
    && Get(o, Aead) == JStr(s.aead) && Get(o, AeadMethod) == JStr(s.aeadMethod) && Get(o, AeadMethodK) == JNull
    && Get(o, Ascii) == JStr(s.ascii) && Get(o, TableType) == JStr(s.tableType) && Get(o, TableTypeK) == JNull
  }

  ghost predicate EncodesPadding(o: Object, s: Settings) {
    && Get(o, PaddingMin) == OfInt(s.paddingMin) && Get(o, PaddingMinK) == JNull
    && Get(o, PaddingMax) == OfInt(s.paddingMax) && Get(o, PaddingMaxK) == JNull
  }

  ghost predicate EncodesTexts(o: Object, s: Settings) {
    && Get(o, EnablePureDownlink) == OfFlag(s.enablePureDownlink) && Get(o, EnablePureDownlinkK) == JNull
    && Get(o, Multiplex) == JStr(s.multiplex) && Get(o, FallbackAddress) == JStr(s.fallbackAddress)
    && Get(o, SuspiciousAction) == JStr(s.suspiciousAction)
  }

  ghost predicate EncodesTables(o: Object, s: Settings) {
    && Get(o, CustomTable) == JStr(s.customTable) && Get(o, CustomTableK) == JNull
    && Get(o, CustomTables) == JsonOfTables(s.customTables) && Get(o, CustomTablesK) == JNull
    && Get(o, HttpMask) == JsonOfMask(s.mask)
  }

  lemma EncodingHasKeys(s: Settings)
    ensures EncodesKeys(Members(JsonOfSettings(s)), s)
  {
    hide JsonOfTables, JsonOfMask, OfFlag, OfInt;
  }

  lemma EncodingHasPadding(s: Settings)
    ensures EncodesPadding(Members(JsonOfSettings(s)), s)
  {
    hide JsonOfTables, JsonOfMask, OfFlag, OfInt;
  }

  lemma EncodingHasTexts(s: Settings)
    ensures EncodesTexts(Members(JsonOfSettings(s)), s)
  {
    hide JsonOfTables, JsonOfMask, OfFlag, OfInt;
  }

  lemma EncodingHasTables(s: Settings)
    ensures EncodesTables(Members(JsonOfSettings(s)), s)
  {
    hide JsonOfTables, JsonOfMask, OfFlag, OfInt;
  }

  lemma EncodedReadsBack(sprint: Json -> string, s: Settings)
    requires Canonical(s)
    ensures SettingsOk(JsonOfSettings(s)) && SettingsOf(sprint, JsonOfSettings(s)) == s
  {
    hide Trimmed, TrimSpace, FirstNonEmpty, MaskOf, MaskOk, JsonOfMask, JsonOfTables, Tables, Get, JsonOfSettings;
    EncodingHasKeys(s);
    EncodingHasPadding(s);
    EncodingHasTexts(s);
    EncodingHasTables(s);
    assert JsonOfSettings(s).JObj? by { IsAnObject(s); }
    var o := Members(JsonOfSettings(s));
    FirstOfAliases(s.aead);
    FirstOfAliases(s.ascii);
    FirstOfAliases(s.customTable);
    MaskReadsBack(s.mask);
    TablesReadBack(sprint, s.customTables);
  }

  lemma IsAnObject(s: Settings)
    ensures JsonOfSettings(s).JObj?
  {
  }

  /**
    Decoding what json.Marshal wrote gives the settings back exactly when decoding can produce them at all,
    whichever of the aliases the panel used.
  */
  lemma SettingsRoundTrip(sprint: Json -> string, s: Settings)
    ensures (SettingsOk(JsonOfSettings(s)) && SettingsOf(sprint, JsonOfSettings(s)) == s)
            <==> exists j :: SettingsOk(j) && SettingsOf(sprint, j) == s
  {
    hide SettingsOk, SettingsOf, Canonical, JsonOfSettings;
    if j :| SettingsOk(j) && SettingsOf(sprint, j) == s {
      DecodedIsCanonical(sprint, j);
      EncodedReadsBack(sprint, s);
    }
  }
}
