/** JSON documents as trees, and how encoding/json reads a Go field of each type from one. */
module Json {
  import opened Panel
  import opened Text

  /**
    Member names, up to case as encoding/json compares them: those the code looks for, numeric keys, and
    the rest. A trailing K marks the spelling with hyphens; PushNs and PullNs are the untagged Go fields.
  */
  datatype Name =
    | MasterPublicKey | MasterPrivateKey | Aead | AeadMethod | AeadMethodK | Ascii | TableType | TableTypeK
    | PaddingMin | PaddingMinK | PaddingMax | PaddingMaxK | EnablePureDownlink | EnablePureDownlinkK
    | Multiplex | FallbackAddress | SuspiciousAction | CustomTable | CustomTableK | CustomTables | CustomTablesK
    | HttpMask | Disable | Mode | Tls | Host | MaskHost | MaskHostK | PathRoot | PathRootK
    | Id | Tag | Protocol | ListenIp | Port | ServerPort | Network | NetworkSettings | Encryption | EncryptionSettings
    | BaseConfig | PushInterval | PullInterval | DeviceOnlineMinTraffic | NodeReportMinTraffic | PushNs | PullNs
    | ApiHost | NodeId | NodeInfo | Users | Alive | Uuid | Email | SpeedLimit | DeviceLimit
    | Key(text: string)

  datatype Json = JNull | JBool(flag: bool) | JNum(number: real) | JStr(text: string) | JArr(items: seq<Json>) | JObj(members: Object)

  type Object = map<Name, Json>

  /** The value at a name; absent counts as null. */
  function Get(o: Object, n: Name): Json { if n in o then o[n] else JNull }

  predicate IsInt(j: Json) {
    j.JNum? && j.number == j.number.Floor as real && MIN_INT64 <= j.number.Floor <= MAX_INT64
  }

  // Null leaves a field as it is, here at its zero value; any other mismatch is an error.

  predicate StringOk(o: Object, n: Name) { Get(o, n).JNull? || Get(o, n).JStr? }
  function StringAt(o: Object, n: Name): string { if Get(o, n).JStr? then Get(o, n).text else "" }

  predicate IntOk(o: Object, n: Name) { Get(o, n).JNull? || IsInt(Get(o, n)) }
  function IntAt(o: Object, n: Name): int { if Get(o, n).JNum? then Get(o, n).number.Floor else 0 }

  predicate FlagOk(o: Object, n: Name) { Get(o, n).JNull? || Get(o, n).JBool? }
  function FlagAt(o: Object, n: Name): Option<bool> { if Get(o, n).JBool? then Some(Get(o, n).flag) else None }

  predicate IsObject(j: Json) { j.JNull? || j.JObj? }
  function Members(j: Json): Object { if j.JObj? then j.members else map[] }

  function OfInt(i: int): Json { JNum(i as real) }
  function OfFlag(f: Option<bool>): Json { if f.Some? then JBool(f.value) else JNull }

  predicate InRange(i: int) { MIN_INT64 <= i <= MAX_INT64 }

  lemma IntReadsBack(o: Object, n: Name, i: int)
    requires Get(o, n) == OfInt(i) && InRange(i)
    ensures IntOk(o, n) && IntAt(o, n) == i
  {
  }
}
