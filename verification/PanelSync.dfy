/**
  Conditional fetching of the node configuration and the user list (internal/panel/client.go) and the
  monitor task that applies them (internal/controller/controller.go). HTTP replies are values.
*/
module PanelSync {
  import opened Panel
  import opened Accounting
  import opened UserSync
  import E = EmbeddedServer
  import K = KeyStore

  /** One HTTP exchange; `decoded` is what the body decodes to, if it decodes. */
  datatype Reply<T> =
    | Unreachable
    | Response(status: int, etag: string, body: string, decoded: Option<T>)

  datatype Fetched<T> = Failure | Nothing | Fresh(value: T)

  datatype Client = Client(nodeEtag: string, bodyHash: string, userEtag: string)

  function TrimQuotesLeft(s: string): string { if s != "" && s[0] == '"' then TrimQuotesLeft(s[1..]) else s }
  function TrimQuotesRight(s: string): string { if s != "" && s[|s| - 1] == '"' then TrimQuotesRight(s[..|s| - 1]) else s }

  /** strings.Trim(s, "\\"") */
  function TrimQuotes(s: string): string { TrimQuotesRight(TrimQuotesLeft(s)) }

  predicate Quotes(s: string) { forall c <- s :: c == '"' }

  /** The text between its outer quotes, which are all dropped: it neither begins nor ends with one. */
  lemma TrimQuotesIs(s: string)
    ensures var t := TrimQuotes(s);
      && (t == "" || (t[0] != '"' && t[|t| - 1] != '"'))
      && exists a, b :: Quotes(a) && Quotes(b) && s == a + t + b
  {
    var a := LeftQuotes(s);
    var b := RightQuotes(TrimQuotesLeft(s));
    assert s == a + TrimQuotes(s) + b;
  }

  lemma {:induction false} LeftQuotes(s: string) returns (a: string)
    ensures Quotes(a) && s == a + TrimQuotesLeft(s)
    ensures TrimQuotesLeft(s) == "" || TrimQuotesLeft(s)[0] != '"'
  {
    a := "";
    if s != "" && s[0] == '"' {
      var b := LeftQuotes(s[1..]);
      a := ['"'] + b;
    }
  }

  lemma {:induction false} RightQuotes(s: string) returns (b: string)
    ensures Quotes(b) && s == TrimQuotesRight(s) + b
    ensures var t := TrimQuotesRight(s); t == "" || (t[|t| - 1] != '"' && t[0] == s[0])
  {
    b := "";
    if s != "" && s[|s| - 1] == '"' {
      var a := RightQuotes(s[..|s| - 1]);
      b := a + ['"'];
      assert s == TrimQuotesRight(s) + b;
    }
  }

  /** GetNodeInfo: the tag is stored before the body is decoded and normalised. */
  function GetNodeInfo<T>(c: Client, r: Reply<T>, sha256: string -> string): (Client, Fetched<T>) {
    if r.Unreachable? then (c, Failure)
    else if r.status == 304 then (c, Nothing)
    else if r.status >= 400 then (c, Failure)
    else if sha256(r.body) == c.bodyHash then (c, Nothing)
    else
      var d := c.(bodyHash := sha256(r.body), nodeEtag := TrimQuotes(r.etag));
      (d, if r.decoded.None? then Failure else Fresh(r.decoded.value))
  }

  /** GetUserList: the tag is stored after decoding; a body without a list decodes to a nil slice. */
  function GetUserList(c: Client, r: Reply<Option<seq<UserInfo>>>): (Client, Fetched<seq<UserInfo>>) {
    if r.Unreachable? then (c, Failure)
    else if r.status == 304 then (c, Nothing)
    else if r.status >= 400 then (c, Failure)
    else if r.decoded.None? then (c, Failure)
    else (c.(userEtag := r.etag), if r.decoded.value.None? then Nothing else Fresh(r.decoded.value.value))
  }

  /**
    The controller: `info` is the node configuration it runs, `serving` the server's user map, `reload`
    whether this generation has asked to be replaced.
  */
  datatype State<T> = State(
    client: Client,
    info: T,
    users: seq<UserInfo>,
    serving: map<string, UserInfo>,
    reload: bool)

  /**
    What the environment answers in one pass. `alive` tells whether GetUserAlive came back (it fails on a
    cancelled context and on an expired deadline, the HTTP client's own included), `rebuilt` whether
    UpdateUsers could rebuild the index, and `timeoutSeen` whether the task's time limit passed before the
    pass was done, however far it had got.
  */
  datatype Replies<T> = Replies(
    node: Reply<T>, users: Reply<Option<seq<UserInfo>>>, alive: bool, rebuilt: bool, timeoutSeen: bool)

  predicate SameList(before: seq<UserInfo>, after: seq<UserInfo>) {
    Walk(Last(before), after) == Delta(map[], [], [])
  }

  /** The part of the pass after a fresh, non-nil list and an alive map. */
  function ApplyList<T>(s: State<T>, list: seq<UserInfo>, rebuilt: bool): State<T> {
    if SameList(s.users, list) then s
    else if !rebuilt then s.(serving := UsersOf(list), reload := true)
    else s.(serving := UsersOf(list), users := list)
  }

  /** nodeInfoMonitor itself. */
  function Monitor<T>(s: State<T>, e: Replies<T>, sha256: string -> string): State<T> {
    var (c, node) := GetNodeInfo(s.client, e.node, sha256);
    var s1 := s.(client := c);
    match node
    case Failure => s1
    case Fresh(_) => s1.(reload := true)
    case Nothing =>
      var (c2, list) := GetUserList(c, e.users);
      var s2 := s1.(client := c2);
      match list
      case Failure => s2
      case Nothing => s2
      case Fresh(users) => if !e.alive then s2 else ApplyList(s2, users, e.rebuilt)
  }

  /** One execution by the task: past its time limit it asks for a reload, and the pass goes on regardless. */
  function Pass<T>(s: State<T>, e: Replies<T>, sha256: string -> string): State<T> {
    var t := Monitor(s, e, sha256);
    t.(reload := t.reload || e.timeoutSeen)
  }

  // ---- the panel's side ----

  datatype Release<T> = Release(tag: string, content: T)

  /** Everything the panel ever published; a user list release may have a body without a list. */
  datatype History<!T> = History(nodes: seq<Release<T>>, lists: seq<Release<Option<seq<UserInfo>>>>)

  /** A tag names one version. */
  ghost predicate TagsName<T>(rs: seq<Release<T>>, stored: string -> string) {
    forall i, j | 0 <= i < |rs| && 0 <= j < |rs| && stored(rs[i].tag) == stored(rs[j].tag) && stored(rs[i].tag) != "" :: i == j
  }

  ghost predicate Wellnamed<T>(h: History<T>) {
    TagsName(h.nodes, TrimQuotes) && TagsName(h.lists, (t: string) => t)
  }

  /** A 200 answers with some published version, under its own tag, and decodes to it if it decodes. */
  ghost predicate Published<T>(rs: seq<Release<T>>, r: Reply<T>) {
    r.Response? && r.status != 304 && r.status < 400 ==>
      exists v | 0 <= v < |rs| :: r.etag == rs[v].tag && (r.decoded.Some? ==> r.decoded.value == rs[v].content)
  }

  ghost predicate Honest<T>(h: History<T>, e: Replies<T>) {
    Published(h.nodes, e.node) && Published(h.lists, e.users)
  }

  ghost predicate NodeNamed<T>(h: History<T>, s: State<T>, v: nat) {
    v < |h.nodes| && TrimQuotes(h.nodes[v].tag) == s.client.nodeEtag && s.client.nodeEtag != ""
  }

  ghost predicate ListNamed<T>(h: History<T>, s: State<T>, v: nat) {
    v < |h.lists| && h.lists[v].tag == s.client.userEtag && s.client.userEtag != ""
  }

  /** The stored node tag names the configuration in use. */
  ghost predicate NodeAgrees<T>(h: History<T>, s: State<T>) {
    s.reload || forall v: nat | NodeNamed(h, s, v) :: h.nodes[v].content == s.info
  }

  /** The stored list tag names a list that gives every uuid the profile the controller has for it. */
  ghost predicate ListAgrees<T>(h: History<T>, s: State<T>) {
    s.reload || forall v: nat | ListNamed(h, s, v) ::
      h.lists[v].content.Some? && Profiles(h.lists[v].content.value) == Profiles(s.users)
  }

  ghost predicate InStep<T>(s: State<T>) {
    s.reload || s.serving == UsersOf(s.users)
  }

  // ---- one pass ----

  /** A pass never leaves the server's users out of step without asking for a reload. */
  lemma PassInStep<T>(s: State<T>, e: Replies<T>, sha256: string -> string)
    requires InStep(s)
    ensures InStep(Pass(s, e, sha256))
  {
  }

  /** The reply of a request that was answered with a body. */
  predicate Answered<T>(r: Reply<T>) { r.Response? && r.status != 304 && r.status < 400 }

  /** The pass stores a node tag. */
  predicate StoresNode<T>(s: State<T>, e: Replies<T>, sha256: string -> string) {
    Answered(e.node) && sha256(e.node.body) != s.client.bodyHash
  }

  /** The pass stores a list tag. */
  predicate StoresList<T>(s: State<T>, e: Replies<T>, sha256: string -> string) {
    GetNodeInfo(s.client, e.node, sha256).1 == Nothing && Answered(e.users) && e.users.decoded.Some?
  }

  /** The stored list tag is empty, or names the list the controller already has or goes on to apply. */
  predicate AppliesList<T>(s: State<T>, e: Replies<T>) {
    e.users.Response? &&
    (e.users.etag == "" ||
     (e.users.decoded.Some? && e.users.decoded.value.Some? && (e.alive || Profiles(e.users.decoded.value.value) == Profiles(s.users))))
  }

  /** The node tag is stored for a body that then fails to decode or normalise. */
  ghost predicate SwallowsNode<T>(s: State<T>, e: Replies<T>, sha256: string -> string) {
    !s.reload && !e.timeoutSeen && StoresNode(s, e, sha256) && e.node.decoded.None?
  }

  /** The list tag is stored for a list that is then not applied. */
  ghost predicate SwallowsList<T>(s: State<T>, e: Replies<T>, sha256: string -> string) {
    !s.reload && !e.timeoutSeen && StoresList(s, e, sha256) && !AppliesList(s, e)
  }

  lemma SameListProfiles(before: seq<UserInfo>, after: seq<UserInfo>)
    requires SameList(before, after)
    ensures Profiles(after) == Profiles(before)
  {
    DiffEmptyIff(before, after);
  }

  /** The panel said the configuration is the one fetched last, by its status or by the same body. */
  predicate NodeUnchanged<T>(s: State<T>, e: Replies<T>, sha256: string -> string) {
    e.node.Response? && (e.node.status == 304 || (e.node.status < 400 && sha256(e.node.body) == s.client.bodyHash))
  }

  /** A new list reaches the controller and the server whenever the configuration is unchanged and nothing fails. */
  lemma PassAppliesList<T>(s: State<T>, e: Replies<T>, list: seq<UserInfo>, sha256: string -> string)
    requires NodeUnchanged(s, e, sha256) && Answered(e.users) && e.users.decoded == Some(Some(list)) && e.alive && InStep(s)
    ensures var t := Pass(s, e, sha256);
      && t.client.userEtag == e.users.etag && t.info == s.info
      && (Profiles(t.users) == Profiles(list) || (!e.rebuilt && t.reload && t.serving == UsersOf(list)))
      && (e.rebuilt ==> t.reload == (s.reload || e.timeoutSeen))
      && (Profiles(s.users) != Profiles(list) ==> t.serving == UsersOf(list) && (e.rebuilt ==> t.users == list))
  {
    hide Profiles, UsersOf, TrimQuotes, SameList;
    if SameList(s.users, list) { SameListProfiles(s.users, list); }
  }

  /** A pass whose configuration request failed, or brought a new one, leaves users and list tag alone. */
  lemma PassWithoutList<T>(s: State<T>, e: Replies<T>, sha256: string -> string)
    requires !NodeUnchanged(s, e, sha256)
    ensures var t := Pass(s, e, sha256);
      && t.users == s.users && t.serving == s.serving && t.info == s.info && t.client.userEtag == s.client.userEtag
      && (t.reload <==> s.reload || e.timeoutSeen || (e.node.Response? && e.node.status < 400 && e.node.decoded.Some?))
  {
    hide UsersOf, TrimQuotes, SameList;
  }

  /** Under unique tags a stored tag names one release, so agreement is about that release alone. */
  lemma ListAgreesAt<T>(h: History<T>, s: State<T>, w: nat)
    requires Wellnamed(h) && w < |h.lists| && h.lists[w].tag == s.client.userEtag
    ensures ListAgrees(h, s) <==>
              s.reload || s.client.userEtag == ""
              || (h.lists[w].content.Some? && Profiles(h.lists[w].content.value) == Profiles(s.users))
  {
    if s.client.userEtag != "" {
      assert ListNamed(h, s, w);
      forall v: nat | ListNamed(h, s, v) ensures v == w {}
    }
  }

  /** What a pass leaves in the fields the list's agreement is about. */
  lemma PassListFields<T>(s: State<T>, e: Replies<T>, sha256: string -> string)
    ensures var t := Pass(s, e, sha256);
      && (s.reload || e.timeoutSeen ==> t.reload)
      && t.client.userEtag == (if StoresList(s, e, sha256) then e.users.etag else s.client.userEtag)
      && (!StoresList(s, e, sha256) ==> t.users == s.users)
      && (StoresList(s, e, sha256) && !t.reload ==>
            Profiles(t.users) == if e.alive && e.users.decoded.value.Some? then Profiles(e.users.decoded.value.value) else Profiles(s.users))
      && (StoresList(s, e, sha256) && (!e.alive || e.users.decoded.value.None?) ==> t.reload == (s.reload || e.timeoutSeen))
  {
    hide Profiles, SameList, UsersOf, TrimQuotes;
    if StoresList(s, e, sha256) && e.users.decoded.value.Some? && SameList(s.users, e.users.decoded.value.value) {
      SameListProfiles(s.users, e.users.decoded.value.value);
    }
  }

  /**
    From any state, whether the list agrees with its tag after a pass: a pass that stores a tag decides it
    by whether it applies that list, any other pass leaves it as it was.
  */
  lemma PassListExactly<T>(h: History<T>, s: State<T>, e: Replies<T>, sha256: string -> string)
    requires Wellnamed(h) && Honest(h, e)
    ensures var t := Pass(s, e, sha256);
      ListAgrees(h, t) <==> t.reload || (if StoresList(s, e, sha256) then AppliesList(s, e) else ListAgrees(h, s))
  {
    var t := Pass(s, e, sha256);
    PassListFields(s, e, sha256);
    if StoresList(s, e, sha256) {
      var w: nat :| w < |h.lists| && e.users.etag == h.lists[w].tag && e.users.decoded.value == h.lists[w].content;
      hide Pass, StoresList, Profiles, ListAgrees, Wellnamed;
      ListAgreesAt(h, t, w);
    } else {
      hide Pass, StoresList, Profiles;
      assert forall v: nat :: ListNamed(h, t, v) <==> ListNamed(h, s, v);
    }
  }

  /** Agreement on the user list survives a pass exactly when the pass does not swallow a list. */
  lemma PassListAgrees<T>(h: History<T>, s: State<T>, e: Replies<T>, sha256: string -> string)
    requires Wellnamed(h) && Honest(h, e) && ListAgrees(h, s)
    ensures ListAgrees(h, Pass(s, e, sha256)) <==> !SwallowsList(s, e, sha256)
  {
    PassListExactly(h, s, e, sha256);
    PassListFields(s, e, sha256);
  }

  /** The body stored under `etag` was a copy of the version already in use. */
  ghost predicate KnownRelease<T>(h: History<T>, etag: string, info: T) {
    exists v | 0 <= v < |h.nodes| :: h.nodes[v].tag == etag && h.nodes[v].content == info
  }

  lemma NodeAgreesAt<T>(h: History<T>, s: State<T>, w: nat)
    requires Wellnamed(h) && w < |h.nodes| && TrimQuotes(h.nodes[w].tag) == s.client.nodeEtag
    ensures NodeAgrees(h, s) <==> s.reload || s.client.nodeEtag == "" || h.nodes[w].content == s.info
  {
    hide TrimQuotes;
    if s.client.nodeEtag != "" {
      assert NodeNamed(h, s, w);
      forall v: nat | NodeNamed(h, s, v) ensures v == w {}
    }
  }

  /** What a pass leaves in the fields the configuration's agreement is about. */
  lemma PassNodeFields<T>(s: State<T>, e: Replies<T>, sha256: string -> string)
    ensures var t := Pass(s, e, sha256);
      && (s.reload || e.timeoutSeen ==> t.reload) && t.info == s.info
      && t.client.nodeEtag == (if StoresNode(s, e, sha256) then TrimQuotes(e.node.etag) else s.client.nodeEtag)
      && (StoresNode(s, e, sha256) && e.node.decoded.Some? ==> t.reload)
      && (StoresNode(s, e, sha256) && e.node.decoded.None? ==> t.reload == (s.reload || e.timeoutSeen))
  {
    hide TrimQuotes;
  }

  /** Under unique tags the release stored under `etag` is the one the tag names. */
  lemma KnownAt<T>(h: History<T>, etag: string, info: T, w: nat)
    requires Wellnamed(h) && w < |h.nodes| && h.nodes[w].tag == etag && TrimQuotes(etag) != ""
    ensures KnownRelease(h, etag, info) <==> h.nodes[w].content == info
  {
    hide TrimQuotes;
  }

  /**
    From any state, whether the configuration agrees with its tag after a pass: a pass that stores a tag
    decides it by whether the tag names the version in use, any other pass leaves it as it was.
  */
  lemma PassNodeExactly<T>(h: History<T>, s: State<T>, e: Replies<T>, sha256: string -> string)
    requires Wellnamed(h) && Honest(h, e)
    ensures var t := Pass(s, e, sha256);
      NodeAgrees(h, t) <==>
      (t.reload
       || if StoresNode(s, e, sha256) then TrimQuotes(e.node.etag) == "" || KnownRelease(h, e.node.etag, s.info) else NodeAgrees(h, s))
  {
    var t := Pass(s, e, sha256);
    PassNodeFields(s, e, sha256);
    if StoresNode(s, e, sha256) {
      var w: nat :| w < |h.nodes| && e.node.etag == h.nodes[w].tag;
      hide Pass, StoresNode, NodeAgrees, Wellnamed, TrimQuotes, KnownRelease;
      NodeAgreesAt(h, t, w);
      if TrimQuotes(e.node.etag) != "" { KnownAt(h, e.node.etag, s.info, w); }
    } else {
      hide Pass, StoresNode, TrimQuotes;
      assert forall v: nat :: NodeNamed(h, t, v) <==> NodeNamed(h, s, v);
    }
  }

  /** Agreement on the node configuration survives a pass exactly when the pass does not swallow a configuration. */
  lemma PassNodeAgrees<T>(h: History<T>, s: State<T>, e: Replies<T>, sha256: string -> string)
    requires Wellnamed(h) && Honest(h, e) && NodeAgrees(h, s)
    ensures NodeAgrees(h, Pass(s, e, sha256)) <==>
              !SwallowsNode(s, e, sha256) || TrimQuotes(e.node.etag) == "" || KnownRelease(h, e.node.etag, s.info)
  {
    hide TrimQuotes, KnownRelease, Pass;
    PassNodeExactly(h, s, e, sha256);
    PassNodeFields(s, e, sha256);
  }

  // ---- runs ----

  function Passes<T>(s: State<T>, es: seq<Replies<T>>, sha256: string -> string): State<T> {
    if es == [] then s else Pass(Passes(s, es[..|es| - 1], sha256), es[|es| - 1], sha256)
  }

  /** Over every run of passes, whatever the panel answers, list and server stay in step or a reload is requested. */
  lemma {:induction false} RunInStep<T>(s: State<T>, es: seq<Replies<T>>, sha256: string -> string)
    requires InStep(s)
    ensures InStep(Passes(s, es, sha256))
  {
    if es != [] {
      var n := |es| - 1;
      RunInStep(s, es[..n], sha256);
      PassInStep(Passes(s, es[..n], sha256), es[n], sha256);
    }
  }

  /**
    The list tag is to be trusted after `es`, given whether it was at the start: since the last reload
    request, the latest pass that stored a tag applied the list it stored it for.
  */
  predicate ListTrusted<T>(atStart: bool, s: State<T>, es: seq<Replies<T>>, sha256: string -> string) {
    if es == [] then atStart
    else
      var n := |es| - 1;
      var before := Passes(s, es[..n], sha256);
      Pass(before, es[n], sha256).reload ||
      (if StoresList(before, es[n], sha256) then AppliesList(before, es[n]) else ListTrusted(atStart, s, es[..n], sha256))
  }

  /** Over every honest run, from any state: the list agrees with its tag exactly when the tag is to be trusted. */
  lemma {:induction false} RunListExactly<T>(h: History<T>, s: State<T>, es: seq<Replies<T>>, sha256: string -> string)
    requires Wellnamed(h) && forall e <- es :: Honest(h, e)
    ensures ListAgrees(h, Passes(s, es, sha256)) <==> ListTrusted(ListAgrees(h, s), s, es, sha256)
  {
    hide Pass, Honest, Wellnamed, ListAgrees, StoresList, AppliesList;
    if es != [] {
      var n := |es| - 1;
      assert es[n] in es;
      forall e <- es[..n] ensures e in es {}
      RunListExactly(h, s, es[..n], sha256);
      PassListExactly(h, Passes(s, es[..n], sha256), es[n], sha256);
    }
  }

  /** The node tag is to be trusted after `es`: the latest pass that stored one, if any, found the version in use. */
  ghost predicate NodeTrusted<T>(h: History<T>, atStart: bool, s: State<T>, es: seq<Replies<T>>, sha256: string -> string) {
    if es == [] then atStart
    else
      var n := |es| - 1;
      var before, e := Passes(s, es[..n], sha256), es[n];
      Pass(before, e, sha256).reload ||
      (if StoresNode(before, e, sha256) then TrimQuotes(e.node.etag) == "" || KnownRelease(h, e.node.etag, before.info)
       else NodeTrusted(h, atStart, s, es[..n], sha256))
  }

  /** Over every honest run, from any state: the configuration agrees with its tag exactly when the tag is to be trusted. */
  lemma {:induction false} RunNodeExactly<T>(h: History<T>, s: State<T>, es: seq<Replies<T>>, sha256: string -> string)
    requires Wellnamed(h) && forall e <- es :: Honest(h, e)
    ensures NodeAgrees(h, Passes(s, es, sha256)) <==> NodeTrusted(h, NodeAgrees(h, s), s, es, sha256)
  {
    hide Pass, Honest, Wellnamed, NodeAgrees, StoresNode, KnownRelease, TrimQuotes;
    if es != [] {
      var n := |es| - 1;
      assert es[n] in es;
      forall e <- es[..n] ensures e in es {}
      RunNodeExactly(h, s, es[..n], sha256);
      PassNodeExactly(h, Passes(s, es[..n], sha256), es[n], sha256);
    }
  }

  /** No pass changes the configuration in use; a new one takes a new controller. */
  lemma {:induction false} RunKeepsInfo<T>(s: State<T>, es: seq<Replies<T>>, sha256: string -> string)
    ensures Passes(s, es, sha256).info == s.info
  {
    hide Pass;
    if es != [] {
      RunKeepsInfo(s, es[..|es| - 1], sha256);
      PassNodeFields(Passes(s, es[..|es| - 1], sha256), es[|es| - 1], sha256);
    }
  }

  // ---- equal bodies ----

  /** A fetch after an answered one is fresh for a body that hashes differently, and only then. */
  lemma FreshAfterAnswer<T>(c: Client, r: Reply<T>, q: Reply<T>, sha256: string -> string)
    requires Answered(r) && Answered(q)
    ensures GetNodeInfo(GetNodeInfo(c, r, sha256).0, q, sha256).1 == Nothing <==> sha256(q.body) == sha256(r.body)
  {
    hide TrimQuotes;
  }

  /** The hash of the body answered last, at the start or by a pass. */
  function LatestHash<T>(r: Startup<T>, es: seq<Replies<T>>, sha256: string -> string): string {
    if es == [] then (if Answered(r.node) then sha256(r.node.body) else "")
    else if Answered(es[|es| - 1].node) then sha256(es[|es| - 1].node.body)
    else LatestHash(r, es[..|es| - 1], sha256)
  }

  /** Over every run from a start, a pass stores a node tag exactly when its answered body hashes differently from the latest. */
  lemma StoresExactlyNewBodies<T>(r: Startup<T>, cache: Option<Cache<T>>, es: seq<Replies<T>>, e: Replies<T>, sha256: string -> string)
    requires Start(r, cache, sha256).Some?
    ensures StoresNode(Passes(Start(r, cache, sha256).value, es, sha256), e, sha256) <==>
            Answered(e.node) && sha256(e.node.body) != LatestHash(r, es, sha256)
  {
    hide Start, Passes;
    BodyHashIsLatest(r, cache, es, sha256);
  }

  lemma {:induction false} BodyHashIsLatest<T>(r: Startup<T>, cache: Option<Cache<T>>, es: seq<Replies<T>>, sha256: string -> string)
    requires Start(r, cache, sha256).Some?
    ensures Passes(Start(r, cache, sha256).value, es, sha256).client.bodyHash == LatestHash(r, es, sha256)
  {
    hide Pass, TrimQuotes, UsersOf;
    if es != [] {
      hide Start;
      BodyHashIsLatest(r, cache, es[..|es| - 1], sha256);
      PassBodyHash(Passes(Start(r, cache, sha256).value, es[..|es| - 1], sha256), es[|es| - 1], sha256);
    }
  }

  lemma PassBodyHash<T>(s: State<T>, e: Replies<T>, sha256: string -> string)
    ensures Pass(s, e, sha256).client.bodyHash == if Answered(e.node) then sha256(e.node.body) else s.client.bodyHash
  {
    hide TrimQuotes, SameList, UsersOf;
  }

  /** A pass in time whose rebuild works, and whose configuration, if answered, is the body `body`. */
  predicate Calm<T>(e: Replies<T>, body: string) {
    !e.timeoutSeen && e.rebuilt && (Answered(e.node) ==> e.node.body == body)
  }

  /** As long as the panel keeps answering the body the start saw, no pass asks for a reload, with or without 304. */
  lemma {:induction false} SameBodyNeverReloads<T>(r: Startup<T>, cache: Option<Cache<T>>, es: seq<Replies<T>>, sha256: string -> string)
    requires Start(r, cache, sha256).Some? && Answered(r.node) && forall e <- es :: Calm(e, r.node.body)
    ensures !Passes(Start(r, cache, sha256).value, es, sha256).reload
    ensures LatestHash(r, es, sha256) == sha256(r.node.body)
  {
    if es == [] {
      StartInStep(r, cache, sha256);
    } else {
      var n := |es| - 1;
      assert es[n] in es;
      forall e <- es[..n] ensures e in es {}
      hide Start, Pass;
      SameBodyNeverReloads(r, cache, es[..n], sha256);
      StoresExactlyNewBodies(r, cache, es[..n], es[n], sha256);
      CalmPass(Passes(Start(r, cache, sha256).value, es[..n], sha256), es[n], r.node.body, sha256);
    }
  }

  lemma CalmPass<T>(s: State<T>, e: Replies<T>, body: string, sha256: string -> string)
    requires !s.reload && Calm(e, body) && !StoresNode(s, e, sha256)
    ensures !Pass(s, e, sha256).reload
  {
    hide TrimQuotes, SameList, UsersOf;
  }

  ghost predicate SwallowFree<T>(s: State<T>, es: seq<Replies<T>>, sha256: string -> string) {
    forall i | 0 <= i < |es| ::
      !SwallowsNode(Passes(s, es[..i], sha256), es[i], sha256) && !SwallowsList(Passes(s, es[..i], sha256), es[i], sha256)
  }

  /** Over every run of passes that swallow nothing the controller holds what its tags name, or asked for a reload. */
  lemma {:induction false} RunAgrees<T>(h: History<T>, s: State<T>, es: seq<Replies<T>>, sha256: string -> string)
    requires Wellnamed(h) && (forall e <- es :: Honest(h, e)) && SwallowFree(s, es, sha256)
    requires NodeAgrees(h, s) && ListAgrees(h, s)
    ensures var t := Passes(s, es, sha256); NodeAgrees(h, t) && ListAgrees(h, t) && (InStep(s) ==> InStep(t))
  {
    if InStep(s) { RunInStep(s, es, sha256); }
    if es != [] {
      var n := |es| - 1;
      var init := es[..n];
      forall i | 0 <= i < n ensures init[..i] == es[..i] {}
      RunAgrees(h, s, init, sha256);
      PassNodeAgrees(h, Passes(s, init, sha256), es[n], sha256);
      PassListAgrees(h, Passes(s, init, sha256), es[n], sha256);
    }
  }

  /** A pass in which the panel reports no change. */
  predicate Quiet<T>(e: Replies<T>) {
    e.node.Response? && e.node.status == 304 && e.users.Response? && e.users.status == 304 && e.alive && !e.timeoutSeen
  }

  /** Once a list was swallowed it stays unapplied for as long as the panel does not publish another. */
  lemma {:induction false} SwallowedListStays<T>(s: State<T>, e: Replies<T>, sha256: string -> string, es: seq<Replies<T>>)
    requires SwallowsList(s, e, sha256) && forall q <- es :: Quiet(q)
    ensures var t := Passes(Pass(s, e, sha256), es, sha256);
      && !t.reload && t.client.userEtag == e.users.etag && t.users == s.users && t.serving == s.serving
  {
    if es != [] {
      assert es[|es| - 1] in es;
      SwallowedListStays(s, e, sha256, es[..|es| - 1]);
    }
  }

  // ---- start ----

  /** What a controller starts from: a live fetch, or the cache when the fetch fails for another reason than authorisation. */
  datatype Cache<T> = Cache(info: T, users: seq<UserInfo>)

  /**
    The replies to the start's requests; `alive` is whether GetUserAlive came back before any deadline,
    `built` whether the server could then be built from what was fetched or cached, and started.
  */
  datatype Startup<T> = Startup(node: Reply<T>, list: Reply<Option<seq<UserInfo>>>, alive: bool, built: bool)

  predicate AuthFailure<T>(r: Reply<T>) { r.Response? && (r.status == 401 || r.status == 403) }

  const NO_TAGS := Client("", "", "")

  predicate NodeFetched<T>(r: Startup<T>, sha256: string -> string) { GetNodeInfo(NO_TAGS, r.node, sha256).1.Fresh? }

  predicate ListFetched<T>(r: Startup<T>) { GetUserList(NO_TAGS, r.list).1.Fresh? }

  /** All three requests came through, so the start is live. */
  predicate IsLive<T>(r: Startup<T>, sha256: string -> string) { NodeFetched(r, sha256) && ListFetched(r) && r.alive }

  /** startupPanelSnapshot, as the state a server built from it is in. The tags stored stay, also when the cache is then used. */
  function Snapshot<T>(r: Startup<T>, cache: Option<Cache<T>>, sha256: string -> string): Option<State<T>> {
    var (c, info) := GetNodeInfo(NO_TAGS, r.node, sha256);
    if !info.Fresh? then (if AuthFailure(r.node) then None else FromCache(c, cache))
    else
      var (c2, users) := GetUserList(c, r.list);
      if !users.Fresh? then (if AuthFailure(r.list) then None else FromCache(c2, cache))
      else if !r.alive then FromCache(c2, cache)
      else Some(State(c2, info.value, users.value, UsersOf(users.value), false))
  }

  /** The state controller.Start reaches, unless it fails. */
  function Start<T>(r: Startup<T>, cache: Option<Cache<T>>, sha256: string -> string): Option<State<T>> {
    if r.built then Snapshot(r, cache, sha256) else None
  }

  function FromCache<T>(c: Client, cache: Option<Cache<T>>): Option<State<T>> {
    if cache.None? then None
    else Some(State(c, cache.value.info, cache.value.users, UsersOf(cache.value.users), false))
  }

  /** The panel refuses the node or its key, which the cache does not override. */
  predicate Refused<T>(r: Startup<T>, sha256: string -> string) {
    if NodeFetched(r, sha256) then !ListFetched(r) && AuthFailure(r.list) else AuthFailure(r.node)
  }

  ghost predicate HonestStart<T>(h: History<T>, r: Startup<T>) {
    Wellnamed(h) && Published(h.nodes, r.node) && Published(h.lists, r.list)
  }

  /** The start stored a list tag. */
  predicate StartStoresList<T>(r: Startup<T>, sha256: string -> string) {
    NodeFetched(r, sha256) && Answered(r.list) && r.list.decoded.Some? && r.list.etag != ""
  }

  /** The list the start's tag names gives every uuid the profile `users` gives it. */
  predicate StartKnowsList<T>(r: Startup<T>, users: seq<UserInfo>) {
    Answered(r.list) && r.list.decoded.Some? && r.list.decoded.value.Some? && Profiles(r.list.decoded.value.value) == Profiles(users)
  }

  /**
    A start fails exactly when the panel refuses it, it is not live and there is no cache, or the server
    cannot be built; every other start leaves the server's users in step with the controller's list.
  */
  lemma StartInStep<T>(r: Startup<T>, cache: Option<Cache<T>>, sha256: string -> string)
    ensures var s := Start(r, cache, sha256);
      && (s.None? <==> Refused(r, sha256) || (!IsLive(r, sha256) && cache.None?) || !r.built)
      && (s.Some? ==> InStep(s.value) && !s.value.reload)
  {
  }

  /**
    With a cache and a server that builds, a start whose requests failed fails exactly on the panel's 401 or
    403; whatever else went wrong, it runs what the cache holds.
  */
  lemma OnlyRefusalsOverrideTheCache<T>(r: Startup<T>, cache: Cache<T>, sha256: string -> string)
    requires r.built && !IsLive(r, sha256)
    ensures var s := Start(r, Some(cache), sha256);
      && (s.Some? ==> s.value.info == cache.info && s.value.users == cache.users && s.value.serving == UsersOf(cache.users))
      && (s.None? <==> if NodeFetched(r, sha256) then r.list.Response? && r.list.status in {401, 403}
                       else r.node.Response? && r.node.status in {401, 403})
  {
    hide UsersOf, TrimQuotes;
  }

  /** A live start runs what it fetched. */
  lemma LiveStartRunsIt<T>(r: Startup<T>, cache: Option<Cache<T>>, sha256: string -> string)
    requires r.built && Answered(r.node) && sha256(r.node.body) != "" && r.node.decoded.Some? && Answered(r.list) && r.alive
    requires r.list.decoded.Some? && r.list.decoded.value.Some?
    ensures var s := Start(r, cache, sha256);
      && s.Some? && s.value.info == r.node.decoded.value && s.value.users == r.list.decoded.value.value
      && s.value.client == Client(TrimQuotes(r.node.etag), sha256(r.node.body), r.list.etag)
  {
    hide UsersOf, TrimQuotes;
  }

  /** A live start agrees with the panel on both counts. */
  lemma LiveStartAgrees<T>(h: History<T>, r: Startup<T>, cache: Option<Cache<T>>, sha256: string -> string)
    requires HonestStart(h, r) && IsLive(r, sha256)
    ensures var s := Start(r, cache, sha256);
      s.Some? == r.built && (s.Some? ==> NodeAgrees(h, s.value) && ListAgrees(h, s.value) && InStep(s.value))
  {
    if r.built {
      var s := Start(r, cache, sha256).value;
      var w: nat :| w < |h.lists| && r.list.etag == h.lists[w].tag && r.list.decoded.value == h.lists[w].content;
      ListAgreesAt(h, s, w);
    }
  }

  /**
    Every start that uses the cache: its list agrees with the stored tag unless the configuration was
    fetched, the list request then stored a tag, and the cache does not hold that list's profiles.
  */
  lemma CachedStartList<T>(h: History<T>, r: Startup<T>, cache: Cache<T>, sha256: string -> string)
    requires HonestStart(h, r) && !IsLive(r, sha256) && !Refused(r, sha256)
    ensures var s := Start(r, Some(cache), sha256);
      && s.Some? == r.built
      && (s.Some? ==> InStep(s.value) &&
                      (ListAgrees(h, s.value) <==> !(StartStoresList(r, sha256) && !StartKnowsList(r, cache.users))))
  {
    if !r.built { return; }
    var s := Start(r, Some(cache), sha256).value;
    if StartStoresList(r, sha256) {
      var w: nat :| w < |h.lists| && r.list.etag == h.lists[w].tag && r.list.decoded.value == h.lists[w].content;
      hide Profiles;
      assert s.client.userEtag == r.list.etag && s.users == cache.users && !s.reload;
      ListAgreesAt(h, s, w);
    } else {
      assert s.client.userEtag == "";
    }
  }

  /** The start stored a node tag: also for a body that did not decode. */
  predicate StartStoresNode<T>(r: Startup<T>, sha256: string -> string) {
    Answered(r.node) && sha256(r.node.body) != "" && TrimQuotes(r.node.etag) != ""
  }

  /** The cache holds the version the node tag names. */
  ghost predicate StartKnowsNode<T>(h: History<T>, r: Startup<T>, info: T) {
    if Answered(r.node) && r.node.decoded.Some? then r.node.decoded.value == info
    else r.node.Response? && KnownRelease(h, r.node.etag, info)
  }

  /**
    Every start that uses the cache keeps the node tag it stored: unless the cache holds the very same
    configuration, the controller believes it runs a version it never applied.
  */
  lemma CachedStartNode<T>(h: History<T>, r: Startup<T>, cache: Cache<T>, sha256: string -> string)
    requires HonestStart(h, r) && !IsLive(r, sha256) && !Refused(r, sha256)
    ensures var s := Start(r, Some(cache), sha256);
      && s.Some? == r.built
      && (s.Some? ==> InStep(s.value) &&
                      (NodeAgrees(h, s.value) <==> !(StartStoresNode(r, sha256) && !StartKnowsNode(h, r, cache.info))))
  {
    if !r.built { return; }
    var s := Start(r, Some(cache), sha256).value;
    if StartStoresNode(r, sha256) {
      var w: nat :| w < |h.nodes| && r.node.etag == h.nodes[w].tag && (r.node.decoded.Some? ==> r.node.decoded.value == h.nodes[w].content);
      assert s.client.nodeEtag == TrimQuotes(r.node.etag) && s.info == cache.info && !s.reload;
      assert NodeNamed(h, s, w);
    } else {
      assert s.client.nodeEtag == "";
    }
  }

  // ---- not modified ----

  /** The start's list tag is to be trusted. */
  predicate StartTrusted<T>(r: Startup<T>, cache: Option<Cache<T>>, sha256: string -> string) {
    || IsLive(r, sha256) || !StartStoresList(r, sha256)
    || (cache.Some? && StartKnowsList(r, cache.value.users))
  }

  lemma StartListExactly<T>(h: History<T>, r: Startup<T>, cache: Option<Cache<T>>, sha256: string -> string)
    requires HonestStart(h, r) && Start(r, cache, sha256).Some?
    ensures ListAgrees(h, Start(r, cache, sha256).value) <==> StartTrusted(r, cache, sha256)
  {
    if IsLive(r, sha256) {
      LiveStartAgrees(h, r, cache, sha256);
    } else {
      CachedStartList(h, r, cache.value, sha256);
    }
  }

  /** A truthful "not modified": the tag the request carried is that of the current release. */
  predicate NotModified<T>(h: History<T>, s: State<T>, e: Replies<T>, current: nat) {
    && current < |h.lists| && e.users.Response? && e.users.status == 304
    && s.client.userEtag == h.lists[current].tag && s.client.userEtag != ""
  }

  /** The controller's list and the server's users are the release's, as far as they are compared. */
  predicate UpToDate<T>(h: History<T>, s: State<T>, current: nat)
    requires current < |h.lists|
  {
    && h.lists[current].content.Some? && Profiles(h.lists[current].content.value) == Profiles(s.users)
    && s.serving == UsersOf(s.users)
  }

  /**
    From any start, over any honest passes, when the panel then truthfully answers "not modified": the
    controller and its server really have the current list, or a reload is requested, exactly when the
    latest request that stored a list tag, at the start or later, was followed by that list.
  */
  lemma NotModifiedIsTrue<T>(h: History<T>, r: Startup<T>, cache: Option<Cache<T>>, es: seq<Replies<T>>, e: Replies<T>,
                             current: nat, sha256: string -> string)
    requires HonestStart(h, r) && Start(r, cache, sha256).Some? && forall q <- es :: Honest(h, q)
    requires NotModified(h, Passes(Start(r, cache, sha256).value, es, sha256), e, current)
    ensures var s := Start(r, cache, sha256).value; var t := Pass(Passes(s, es, sha256), e, sha256);
      t.reload || UpToDate(h, t, current) <==> t.reload || ListTrusted(StartTrusted(r, cache, sha256), s, es, sha256)
  {
    var s := Start(r, cache, sha256).value;
    var u := Passes(s, es, sha256);
    StartListExactly(h, r, cache, sha256);
    RunListExactly(h, s, es, sha256);
    ListAgreesAt(h, u, current);
    StartInStep(r, cache, sha256);
    RunInStep(s, es, sha256);
    Unmodified(u, e, sha256);
    hide Start, Passes, Pass, StartTrusted, ListTrusted, Profiles, ListAgrees, HonestStart;
  }

  /** A 304 for the list leaves users, server and reload request as they were, up to a new request. */
  lemma Unmodified<T>(s: State<T>, e: Replies<T>, sha256: string -> string)
    requires e.users.Response? && e.users.status == 304
    ensures var t := Pass(s, e, sha256);
      t.users == s.users && t.serving == s.serving && (s.reload ==> t.reload)
  {
  }

  /** The start's node tag is to be trusted. */
  ghost predicate StartNodeTrusted<T>(h: History<T>, r: Startup<T>, cache: Option<Cache<T>>, sha256: string -> string) {
    || IsLive(r, sha256) || !StartStoresNode(r, sha256)
    || (cache.Some? && StartKnowsNode(h, r, cache.value.info))
  }

  lemma StartNodeExactly<T>(h: History<T>, r: Startup<T>, cache: Option<Cache<T>>, sha256: string -> string)
    requires HonestStart(h, r) && Start(r, cache, sha256).Some?
    ensures NodeAgrees(h, Start(r, cache, sha256).value) <==> StartNodeTrusted(h, r, cache, sha256)
  {
    if IsLive(r, sha256) {
      LiveStartAgrees(h, r, cache, sha256);
    } else {
      CachedStartNode(h, r, cache.value, sha256);
    }
  }

  /** A truthful "not modified" for the configuration. */
  predicate NodeNotModified<T>(h: History<T>, s: State<T>, e: Replies<T>, current: nat) {
    && current < |h.nodes| && e.node.Response? && e.node.status == 304
    && s.client.nodeEtag == TrimQuotes(h.nodes[current].tag) && s.client.nodeEtag != ""
  }

  /**
    From any start, over any honest passes, when the panel then truthfully answers "not modified" for the
    configuration: the controller runs the current one, or a reload is requested, exactly when the latest
    request that stored a node tag, at the start or later, was for the version in use.
  */
  lemma NodeNotModifiedIsTrue<T>(h: History<T>, r: Startup<T>, cache: Option<Cache<T>>, es: seq<Replies<T>>, e: Replies<T>,
                                 current: nat, sha256: string -> string)
    requires HonestStart(h, r) && Start(r, cache, sha256).Some? && forall q <- es :: Honest(h, q)
    requires NodeNotModified(h, Passes(Start(r, cache, sha256).value, es, sha256), e, current)
    ensures var s := Start(r, cache, sha256).value; var t := Pass(Passes(s, es, sha256), e, sha256);
      t.reload || h.nodes[current].content == t.info
      <==> t.reload || NodeTrusted(h, StartNodeTrusted(h, r, cache, sha256), s, es, sha256)
  {
    var s := Start(r, cache, sha256).value;
    var u := Passes(s, es, sha256);
    StartNodeExactly(h, r, cache, sha256);
    RunNodeExactly(h, s, es, sha256);
    NodeAgreesAt(h, u, current);
    PassNodeFields(u, e, sha256);
    hide Start, Passes, Pass, StartNodeTrusted, NodeTrusted, NodeAgrees, HonestStart, TrimQuotes;
  }

  /** In particular after a trusted start and passes that swallow nothing. */
  lemma {:induction false} SwallowFreeIsTrusted<T>(atStart: bool, s: State<T>, es: seq<Replies<T>>, sha256: string -> string)
    requires atStart && SwallowFree(s, es, sha256)
    ensures ListTrusted(atStart, s, es, sha256)
  {
    hide Pass, StoresList, AppliesList, SwallowsNode;
    if es != [] {
      var n := |es| - 1;
      var init := es[..n];
      forall i | 0 <= i < n ensures init[..i] == es[..i] && init[i] == es[i] {}
      SwallowFreeIsTrusted(atStart, s, init, sha256);
      PassListFields(Passes(s, init, sha256), es[n], sha256);
    }
  }

  // ---- the objects ----

  /** The conditional-request state of panel.Client. */
  class PanelClient {
    var nodeEtag: string
    var responseBodyHash: string
    var userEtag: string
    const sha256: string -> string

    ghost function View(): Client
      reads this
    {
      Client(nodeEtag, responseBodyHash, userEtag)
    }

    constructor (start: Client, sha256: string -> string)
      ensures View() == start && this.sha256 == sha256
    {
      nodeEtag, responseBodyHash, userEtag := start.nodeEtag, start.bodyHash, start.userEtag;
      this.sha256 := sha256;
    }

    method FetchNodeInfo<T>(r: Reply<T>) returns (result: Fetched<T>)
      modifies this
      ensures (View(), result) == GetNodeInfo(old(View()), r, sha256)
    {
      if r.Unreachable? { return Failure; }
      if r.status == 304 { return Nothing; }
      if r.status >= 400 { return Failure; }
      var newBodyHash := sha256(r.body);
      if responseBodyHash == newBodyHash { return Nothing; }
      responseBodyHash := newBodyHash;
      nodeEtag := TrimQuotes(r.etag);
      if r.decoded.None? { return Failure; }
      result := Fresh(r.decoded.value);
    }

    method FetchUserList(r: Reply<Option<seq<UserInfo>>>) returns (result: Fetched<seq<UserInfo>>)
      modifies this
      ensures (View(), result) == GetUserList(old(View()), r)
    {
      if r.Unreachable? { return Failure; }
      if r.status == 304 { return Nothing; }
      if r.status >= 400 { return Failure; }
      if r.decoded.None? { return Failure; }
      userEtag := r.etag;
      result := if r.decoded.value.None? then Nothing else Fresh(r.decoded.value.value);
    }
  }

  class Controller<T(==)> {
    const apiClient: PanelClient
    const server: E.Embedded
    var info: T
    var userList: seq<UserInfo>
    /** Whether this generation has sent a reload token. */
    var reloadRequested: bool

    /** `serving` is the server's own user map. */
    ghost function View(): State<T>
      reads this, apiClient, server
    {
      State(apiClient.View(), info, userList, server.users, reloadRequested)
    }

    constructor (api: PanelClient, server: E.Embedded, start: State<T>)
      requires api.View() == start.client && server.users == start.serving
      ensures View() == start && apiClient == api && this.server == server
    {
      apiClient, this.server, info, userList, reloadRequested := api, server, start.info, start.users, start.reload;
    }

    /** server.UpdateUsers with a full list: the users are replaced even when the rebuild then fails. */
    method UpdateServer(added: seq<UserInfo>, deleted: seq<UserInfo>, modified: seq<UserInfo>, full: seq<UserInfo>, w: K.World)
        returns (ok: bool)
      requires server.Valid()
      modifies server, server.pool, server.keyStore
      ensures server.Valid() && server.users == UsersOf(full)
    {
      ghost var made, keys;
      ok, made, keys := server.UpdateUsers(added, deleted, modified, Some(full), w);
    }

    /** The pass after a fresh list; `rebuilt` is whether the server could rebuild its index. */
    method ApplyUsers(list: seq<UserInfo>, w: K.World) returns (ghost rebuilt: bool)
      requires server.Valid()
      modifies this`userList, this`reloadRequested, server, server.pool, server.keyStore
      ensures server.Valid()
      ensures View() == ApplyList(old(View()), list, rebuilt)
    {
      hide Server.WellFormed, UsersOf, Last, Uuids;
      rebuilt := true;
      var deleted, added, modified := CompareUserList(userList, list);
      RestEmpty(deleted, Walk(Last(userList), list).rest);
      if |added| > 0 || |deleted| > 0 || |modified| > 0 {
        var ok := UpdateServer(added, deleted, modified, list, w);
        rebuilt := ok;
        if !ok {
          reloadRequested := true;
          return;
        }
        userList := list;
      }
    }

    /** The task body; `rebuilt` is whether the server could rebuild its index, if it was asked to. */
    method NodeInfoMonitor(e: Replies<T>, w: K.World) returns (ghost rebuilt: bool)
      requires server.Valid()
      modifies this`userList, this`reloadRequested, apiClient, server, server.pool, server.keyStore
      ensures server.Valid()
      ensures View() == Monitor(old(View()), e.(rebuilt := rebuilt), apiClient.sha256)
    {
      hide ApplyList;
      rebuilt := true;
      var newInfo := apiClient.FetchNodeInfo(e.node);
      if newInfo.Failure? { return; }
      if newInfo.Fresh? {
        reloadRequested := true;
        return;
      }
      var newUsers := apiClient.FetchUserList(e.users);
      if newUsers.Failure? || !e.alive || newUsers.Nothing? { return; }
      rebuilt := ApplyUsers(newUsers.value, w);
    }

    /** One execution by the task, whose time limit may pass at any point of it. */
    method ExecuteMonitor(e: Replies<T>, w: K.World) returns (ghost rebuilt: bool)
      requires server.Valid()
      modifies this`userList, this`reloadRequested, apiClient, server, server.pool, server.keyStore
      ensures server.Valid()
      ensures View() == Pass(old(View()), e.(rebuilt := rebuilt), apiClient.sha256)
    {
      hide Monitor;
      rebuilt := NodeInfoMonitor(e, w);
      if e.timeoutSeen { reloadRequested := true; }
    }
  }

  lemma RestEmpty(deleted: seq<UserInfo>, rest: map<string, UserInfo>)
    requires Enumerates(deleted, rest)
    ensures deleted == [] <==> rest == map[]
  {
    if deleted != [] {
      assert deleted[0].uuid in Uuids(deleted);
    } else {
      assert rest.Keys == {};
    }
  }
}
