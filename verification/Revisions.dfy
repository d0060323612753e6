/** How a template bundle reaches the clients: edits, publishes that may fail to save, server restarts, and
    deliveries that may be lost, repeated and out of order (apps/server/server_controller.cpp,
    apps/client/monitor_worker.cpp). */
module Revisions {
  import opened Base
  import opened Sequences
  import opened Json
  import opened Rules
  import opened RuleIds
  import opened BundleCodec

  datatype Message = Message(revision: uint64, hash: string, json: Json)

  /** The hash of a bundle's content. */
  type Hash = TemplateBundle -> string

  const EMPTY := TemplateBundle(0, "", Template("", []), [], map[])

  // ----- the server's side -----

  /** disk is the saved bundle file, if there is one that can be read. */
  datatype Server = Server(draft: TemplateBundle, published: TemplateBundle, disk: Option<Json>)

  predicate CanPublish(hashOf: Hash, s: Server) {
    hashOf(s.draft) != hashOf(s.published)
  }

  function MessageOf(b: TemplateBundle): Message {
    Message(b.revision, b.hash, BundleToJson(b))
  }

  function NextBundle(hashOf: Hash, s: Server): TemplateBundle {
    var numbered := s.draft.(revision := ToUint64(s.published.revision + 1));
    numbered.(hash := hashOf(numbered))
  }

  /** The file is opened for truncation and then written; a text cut short does not parse. */
  datatype Save = Saved | NotOpened | CutShort

  function Stored(b: TemplateBundle, save: Save, before: Option<Json>): Option<Json> {
    match save
    case Saved => Some(BundleToJson(b))
    case NotOpened => before
    case CutShort => None
  }

  function Published(hashOf: Hash, s: Server, save: Save): Server {
    if !CanPublish(hashOf, s) then s
    else
      var next := NextBundle(hashOf, s);
      Server(next, next, Stored(next, save, s.disk))
  }

  function Loaded(disk: Option<Json>): TemplateBundle {
    if disk.None? then EMPTY
    else
      var read := BundleFromJson(disk.value);
      if read.Success? then read.value else EMPTY
  }

  /** What load_config takes for the published bundle: nothing, silently, when the file cannot be opened. */
  function LoadedWhen(readable: bool, disk: Option<Json>): TemplateBundle {
    if readable then Loaded(disk) else EMPTY
  }

  /** draft is `published` with its rule ids repaired. */
  ghost predicate IsRepairOf(published: TemplateBundle, draft: TemplateBundle) {
    && draft == published.(baseline := draft.baseline, templates := draft.templates)
    && AllRules(draft) == Repair(AllRules(published)).rules
  }

  function Hasher(dump: Json -> seq<byte>): Hash {
    (b: TemplateBundle) => ContentHash(dump, b)
  }

  /** The hash reads neither the revision nor the stored hash. */
  ghost predicate ReadsContentOnly(hashOf: Hash) {
    forall b: TemplateBundle, revision: uint64, hash: string ::
      hashOf(b.(revision := revision, hash := hash)) == hashOf(b)
  }

  lemma HasherReadsContentOnly(dump: Json -> seq<byte>)
    ensures ReadsContentOnly(Hasher(dump))
  {
    forall b: TemplateBundle, revision: uint64, hash: string
      ensures Hasher(dump)(b.(revision := revision, hash := hash)) == Hasher(dump)(b)
    {
      HashIsOfContent(dump, b, b, revision, hash);
    }
  }

  class Publisher {
    /** content_hash, which BundleCodec.ComputeContentHash computes digit by digit. */
    const hashOf: Hash
    var draft: TemplateBundle
    var published: TemplateBundle
    var disk: Option<Json>
    /** Bundles handed to the transport, in order. */
    var outbox: seq<Message>

    ghost function State(): Server
      reads this
    {
      Server(draft, published, disk)
    }

    /** load_config, then the announcement of what was loaded. */
    constructor (dump: Json -> seq<byte>, disk: Option<Json>, readable: bool)
      ensures hashOf == Hasher(dump) && this.disk == disk
      ensures published == LoadedWhen(readable, disk) && IsRepairOf(published, draft)
      ensures outbox == if published.revision == 0 then [] else [MessageOf(published)]
    {
      var loaded := EMPTY;
      var read: Result<TemplateBundle, ReadError> := Failure(MissingMember);
      if readable && disk.Some? {
        read := BundleFromJson(disk.value);
      }
      if read.Success? {
        loaded := read.value;
      }
      var draftBundle := new BundleDraft(loaded);
      var renames := draftBundle.DeduplicateRuleIds();
      this.hashOf, this.disk := Hasher(dump), disk;
      published := loaded;
      draft := draftBundle.bundle;
      outbox := [];
      new;
      AnnouncePublished();
    }

    method Send(b: TemplateBundle)
      modifies this`outbox
      ensures outbox == old(outbox) + [MessageOf(b)]
    {
      outbox := outbox + [Message(b.revision, b.hash, BundleToJson(b))];
    }

    method SavePublished(save: Save)
      modifies this`disk
      ensures disk == Stored(published, save, old(disk))
    {
      if save == NotOpened {
        return;
      }
      disk := None;
      if save == Saved {
        disk := Some(BundleToJson(published));
      }
    }

    method AnnouncePublished()
      modifies this`outbox
      ensures outbox == old(outbox) + if published.revision == 0 then [] else [MessageOf(published)]
    {
      if published.revision == 0 {
        return;
      }
      Send(published);
    }

    method CheckCanPublish() returns (can: bool)
      ensures can == CanPublish(hashOf, State())
    {
      return hashOf(draft) != hashOf(published);
    }

    method NumberDraft()
      modifies this`draft
      ensures draft == NextBundle(hashOf, old(State()))
    {
      draft := draft.(revision := ToUint64(published.revision + 1));
      draft := draft.(hash := hashOf(draft));
    }

    method Publish(save: Save)
      modifies this
      ensures State() == Published(hashOf, old(State()), save)
      ensures outbox == old(outbox) + if CanPublish(hashOf, old(State())) then [MessageOf(published)] else []
    {
      var can := CheckCanPublish();
      if !can {
        return;
      }
      NumberDraft();
      published := draft;
      SavePublished(save);
      Send(published);
    }
  }

  /** Publishing leaves nothing to publish, raises the revision by one, and the saved hash is the hash of
      the published content. */
  lemma NothingLeftToPublish(hashOf: Hash, s: Server, save: Save)
    requires ReadsContentOnly(hashOf)
    ensures var s' := Published(hashOf, s, save);
      && !CanPublish(hashOf, s')
      && (CanPublish(hashOf, s) ==>
            && s'.published.revision == ToUint64(s.published.revision + 1)
            && s'.published.hash == hashOf(s'.published) == hashOf(s.draft)
            && s'.published.templates == s.draft.templates && s'.published.assignments == s.draft.assignments)
  {
    if CanPublish(hashOf, s) {
      var numbered := s.draft.(revision := ToUint64(s.published.revision + 1));
      assert numbered.(hash := hashOf(numbered)) == numbered.(revision := numbered.revision, hash := hashOf(numbered));
      assert numbered == s.draft.(revision := numbered.revision, hash := s.draft.hash);
    }
  }

  // ----- the client's side -----

  /** A bundle of the revision already held is skipped; one that cannot be read is discarded. */
  function Received(held: TemplateBundle, message: Message): TemplateBundle {
    if message.revision == held.revision then held
    else
      var read := BundleFromJson(message.json);
      if read.Success? then read.value else held
  }

  class Receiver {
    var bundle: TemplateBundle
    var heardServer: bool

    constructor ()
      ensures bundle == EMPTY && !heardServer
    {
      bundle, heardServer := EMPTY, false;
    }

    method OnBundle(message: Message)
      modifies this
      ensures bundle == Received(old(bundle), message) && heardServer
    {
      heardServer := true;
      if message.revision == bundle.revision {
        return;
      }
      var parsed := BundleFromJson(message.json);
      if parsed.Failure? {
        return;
      }
      bundle := parsed.value;
    }
  }

  // ----- the system -----

  /** received: the messages delivered to this process, by their places, in order. */
  datatype Client = Client(bundle: TemplateBundle, received: seq<nat>)

  function Latest(c: Client): Option<nat> {
    if c.received == [] then None else Some(c.received[|c.received| - 1])
  }

  /** messages holds everything ever handed to the transport. unsaved: the newest publish of this server
      process was not saved; lost: a server restart did not bring back what had been published. */
  datatype System = System(
    server: Server, messages: seq<Message>, clients: map<HostId, Client>, unsaved: bool, lost: bool)

  /** readable: the restart can open the bundle file, if there is one. */
  datatype Action =
    | Edit(draft: TemplateBundle)
    | Publish(save: Save)
    | RestartServer(draft: TemplateBundle, readable: bool)
    | Deliver(hostId: HostId, index: nat)
    | RestartClient(hostId: HostId)

  ghost predicate Initial(s: System) {
    && s.server == Server(EMPTY, EMPTY, None) && s.messages == [] && !s.unsaved && !s.lost
    && forall h | h in s.clients :: s.clients[h] == Client(EMPTY, [])
  }

  /** An operator's versions come from parsed text, so every edited bundle can be encoded; the revision
      counter does not reach 2^64. Any message ever sent may be delivered, at any time and again. */
  ghost predicate Enabled(s: System, a: Action) {
    match a
    case Edit(draft) => BundleOk(draft)
    case Publish(_) => s.server.published.revision + 1 < 0x1_0000_0000_0000_0000
    case RestartServer(draft, readable) => IsRepairOf(LoadedWhen(readable, s.server.disk), draft)
    case Deliver(h, i) => h in s.clients && i < |s.messages|
    case RestartClient(h) => h in s.clients
  }

  /** A restart brings back what was published: it was saved and can be opened, or there was nothing. */
  predicate BringsBack(s: System, readable: bool) {
    !s.unsaved && (readable || s.server.published.revision == 0)
  }

  function Do(hashOf: Hash, s: System, a: Action): System {
    match a
    case Edit(draft) => s.(server := s.server.(draft := draft))
    case Publish(save) =>
      var server := Published(hashOf, s.server, save);
      if !CanPublish(hashOf, s.server) then s
      else s.(server := server, messages := s.messages + [MessageOf(server.published)], unsaved := save != Saved)
    case RestartServer(draft, readable) =>
      var published := LoadedWhen(readable, s.server.disk);
      s.(
        server := Server(draft, published, s.server.disk),
        messages := if published.revision == 0 then s.messages else s.messages + [MessageOf(published)],
        unsaved := false,
        lost := s.lost || !BringsBack(s, readable))
    case Deliver(h, i) =>
      if h in s.clients && i < |s.messages|
      then s.(clients := s.clients[h := Taken(s.clients[h], s.messages, i)]) else s
    case RestartClient(h) => s.(clients := s.clients[h := Client(EMPTY, [])])
  }

  function Taken(c: Client, messages: seq<Message>, i: nat): Client
    requires i < |messages|
  {
    Client(Received(c.bundle, messages[i]), c.received + [i])
  }

  ghost predicate Runs(hashOf: Hash, s: System, actions: seq<Action>)
    decreases |actions|
  {
    actions == [] || (Enabled(s, actions[0]) && Runs(hashOf, Do(hashOf, s, actions[0]), actions[1..]))
  }

  function After(hashOf: Hash, s: System, actions: seq<Action>): System
    decreases |actions|
  {
    if actions == [] then s else After(hashOf, Do(hashOf, s, actions[0]), actions[1..])
  }

  /** The bundle a message carries. */
  ghost predicate Carries(m: Message, b: TemplateBundle) {
    m == MessageOf(b) && BundleOk(b) && b.revision > 0
  }

  function Content(m: Message): TemplateBundle {
    Loaded(Some(m.json))
  }

  ghost predicate Ordered(messages: seq<Message>) {
    && (forall i | 0 <= i < |messages| :: Carries(messages[i], Content(messages[i])))
    && (forall i, j | 0 <= i <= j < |messages| :: messages[i].revision <= messages[j].revision)
    && (forall i, j | 0 <= i <= j < |messages| && messages[i].revision == messages[j].revision ::
        messages[i] == messages[j])
  }

  ghost predicate ServerOk(server: Server, messages: seq<Message>, unsaved: bool) {
    && BundleOk(server.draft)
    && (if messages == [] then server.published == EMPTY && server.disk == None && !unsaved
        else Carries(messages[|messages| - 1], server.published))
    && (if unsaved then Loaded(server.disk).revision < server.published.revision
        else messages != [] ==> server.disk == Some(BundleToJson(server.published)))
  }

  ghost predicate ClientOk(c: Client, messages: seq<Message>) {
    match Latest(c)
    case None => c.bundle == EMPTY
    case Some(i) => i < |messages| && Carries(messages[i], c.bundle)
  }

  ghost predicate Invariant(s: System) {
    && Ordered(s.messages) && ServerOk(s.server, s.messages, s.unsaved)
    && forall h | h in s.clients :: ClientOk(s.clients[h], s.messages)
  }

  // ----- every step keeps the invariant -----

  lemma CarriedIsContent(m: Message, b: TemplateBundle)
    requires Carries(m, b)
    ensures Content(m) == b && m.revision == b.revision && m.json == BundleToJson(b)
  {
    BundleRoundTrip(b);
  }

  lemma AppendOrdered(messages: seq<Message>, m: Message)
    requires Ordered(messages) && Carries(m, Content(m))
    requires messages != [] ==> messages[|messages| - 1].revision < m.revision || messages[|messages| - 1] == m
    ensures Ordered(messages + [m])
  {
    var longer := messages + [m];
    forall i | 0 <= i < |messages|
      ensures longer[i].revision <= m.revision
      ensures longer[i].revision == m.revision ==> longer[i] == m
    {
      assert messages[i].revision <= messages[|messages| - 1].revision;
    }
  }

  lemma ClientsKept(clients: map<HostId, Client>, messages: seq<Message>, more: Message)
    requires forall h | h in clients :: ClientOk(clients[h], messages)
    ensures forall h | h in clients :: ClientOk(clients[h], messages + [more])
  {
    forall h | h in clients
      ensures ClientOk(clients[h], messages + [more])
    {
      assert ClientOk(clients[h], messages);
    }
  }

  lemma NextIsOk(hashOf: Hash, server: Server)
    requires BundleOk(server.draft) && server.published.revision + 1 < 0x1_0000_0000_0000_0000
    ensures var next := NextBundle(hashOf, server);
      Carries(MessageOf(next), next) && next.revision == server.published.revision + 1
      && next.templates == server.draft.templates
  {
  }

  lemma SavedRevision(server: Server, messages: seq<Message>, unsaved: bool)
    requires ServerOk(server, messages, unsaved)
    ensures Loaded(server.disk).revision <= server.published.revision
    ensures !unsaved ==> Loaded(server.disk) == server.published
  {
    if messages != [] && !unsaved {
      BundleRoundTrip(server.published);
    }
  }

  lemma StoredServer(hashOf: Hash, server: Server, messages: seq<Message>, unsaved: bool, save: Save)
    requires ServerOk(server, messages, unsaved) && CanPublish(hashOf, server)
    requires server.published.revision + 1 < 0x1_0000_0000_0000_0000
    ensures ServerOk(Published(hashOf, server, save), messages + [MessageOf(NextBundle(hashOf, server))], save != Saved)
  {
    NextIsOk(hashOf, server);
    SavedRevision(server, messages, unsaved);
  }

  lemma MessagesBelow(server: Server, messages: seq<Message>, unsaved: bool)
    requires Ordered(messages) && ServerOk(server, messages, unsaved)
    ensures forall i | 0 <= i < |messages| :: messages[i].revision <= server.published.revision
  {
    if messages != [] {
      CarriedIsContent(messages[|messages| - 1], server.published);
    }
  }

  lemma PublishKeeps(hashOf: Hash, s: System, save: Save)
    requires Invariant(s) && Enabled(s, Publish(save)) && CanPublish(hashOf, s.server)
    ensures Invariant(Do(hashOf, s, Publish(save)))
    ensures forall i | 0 <= i < |s.messages| :: s.messages[i].revision < NextBundle(hashOf, s.server).revision
  {
    var next := NextBundle(hashOf, s.server);
    NextIsOk(hashOf, s.server);
    CarriedIsContent(MessageOf(next), next);
    MessagesBelow(s.server, s.messages, s.unsaved);
    StoredServer(hashOf, s.server, s.messages, s.unsaved, save);
    AppendOrdered(s.messages, MessageOf(next));
    ClientsKept(s.clients, s.messages, MessageOf(next));
  }

  lemma {:induction false} AllRulesOk(b: TemplateBundle)
    ensures BundleOk(b) <==> forall rule | rule in AllRules(b) :: RuleOk(rule)
  {
    if BundleOk(b) {
      forall rule | rule in AllRules(b)
        ensures RuleOk(rule)
      {
        if rule !in b.baseline.rules {
          var t := FromFlat(b.templates, rule);
          assert TemplateOk(b.templates[t]);
        }
      }
    }
    if forall rule | rule in AllRules(b) :: RuleOk(rule) {
      assert TemplateOk(b.baseline) by {
        assert forall i | 0 <= i < |b.baseline.rules| :: b.baseline.rules[i] in AllRules(b);
      }
      forall t | 0 <= t < |b.templates|
        ensures TemplateOk(b.templates[t])
      {
        forall i | 0 <= i < |b.templates[t].rules|
          ensures RuleOk(b.templates[t].rules[i])
        {
          InFlat(b.templates, t, b.templates[t].rules[i]);
        }
      }
    }
  }

  lemma RepairKeepsOk(published: TemplateBundle, draft: TemplateBundle)
    requires BundleOk(published) && IsRepairOf(published, draft)
    ensures BundleOk(draft)
  {
    AllRulesOk(published);
    AllRulesOk(draft);
    RepairIsOk(AllRules(published));
    var rules, repaired := AllRules(published), AllRules(draft);
    forall rule | rule in repaired
      ensures RuleOk(rule)
    {
      var i :| 0 <= i < |repaired| && repaired[i] == rule;
      assert rules[i] in rules;
    }
  }

  lemma LoadedIsPublished(server: Server, messages: seq<Message>, unsaved: bool, readable: bool)
    requires ServerOk(server, messages, unsaved) && !unsaved && (readable || server.published.revision == 0)
    ensures LoadedWhen(readable, server.disk) == server.published
  {
    SavedRevision(server, messages, unsaved);
    if messages != [] {
      CarriedIsContent(messages[|messages| - 1], server.published);
    }
  }

  lemma RestartKeeps(hashOf: Hash, s: System, draft: TemplateBundle, readable: bool)
    requires Invariant(s) && Enabled(s, RestartServer(draft, readable)) && BringsBack(s, readable)
    ensures Invariant(Do(hashOf, s, RestartServer(draft, readable)))
  {
    LoadedIsPublished(s.server, s.messages, s.unsaved, readable);
    if s.messages == [] {
      RepairKeepsOk(EMPTY, draft);
    } else {
      CarriedIsContent(s.messages[|s.messages| - 1], s.server.published);
      RepairKeepsOk(s.server.published, draft);
      AppendOrdered(s.messages, MessageOf(s.server.published));
      ClientsKept(s.clients, s.messages, MessageOf(s.server.published));
    }
  }

  /** A client that skips an equal revision already holds that bundle. */
  lemma DeliveryGivesTheMessage(c: Client, messages: seq<Message>, i: nat, b: TemplateBundle)
    requires Ordered(messages) && ClientOk(c, messages) && i < |messages| && Carries(messages[i], b)
    ensures Received(c.bundle, messages[i]) == b
  {
    CarriedIsContent(messages[i], b);
    BundleRoundTrip(b);
    if messages[i].revision == c.bundle.revision {
      var k := Latest(c).value;
      CarriedIsContent(messages[k], c.bundle);
      assert messages[if k <= i then k else i].revision == messages[if k <= i then i else k].revision;
    }
  }

  lemma DeliverKeeps(hashOf: Hash, s: System, h: HostId, i: nat)
    requires Invariant(s) && Enabled(s, Deliver(h, i))
    ensures Invariant(Do(hashOf, s, Deliver(h, i)))
  {
    DeliveryGivesTheMessage(s.clients[h], s.messages, i, Content(s.messages[i]));
  }

  lemma StepKeeps(hashOf: Hash, s: System, a: Action)
    requires Invariant(s) && Enabled(s, a) && (a.RestartServer? ==> BringsBack(s, a.readable))
    ensures Invariant(Do(hashOf, s, a))
  {
    match a
    case Edit(_) =>
    case Publish(save) =>
      if CanPublish(hashOf, s.server) {
        PublishKeeps(hashOf, s, save);
      }
    case RestartServer(draft, readable) => RestartKeeps(hashOf, s, draft, readable);
    case Deliver(h, i) => DeliverKeeps(hashOf, s, h, i);
    case RestartClient(_) =>
  }

  lemma {:induction false} StaysLost(hashOf: Hash, s: System, actions: seq<Action>)
    ensures s.lost ==> After(hashOf, s, actions).lost
    decreases |actions|
  {
    if actions != [] {
      StaysLost(hashOf, Do(hashOf, s, actions[0]), actions[1..]);
    }
  }

  lemma {:induction false} RunsKeep(hashOf: Hash, s: System, actions: seq<Action>)
    requires Invariant(s) && Runs(hashOf, s, actions) && !After(hashOf, s, actions).lost
    ensures Invariant(After(hashOf, s, actions))
    decreases |actions|
  {
    if actions != [] {
      StaysLost(hashOf, Do(hashOf, s, actions[0]), actions[1..]);
      StepKeeps(hashOf, s, actions[0]);
      RunsKeep(hashOf, Do(hashOf, s, actions[0]), actions[1..]);
    }
  }

  // ----- what follows -----

  lemma ClientHoldsLatest(c: Client, messages: seq<Message>)
    requires ClientOk(c, messages) && Latest(c).Some?
    ensures var i := Latest(c).value;
      i < |messages| && c.bundle == Content(messages[i]) && c.bundle.revision == messages[i].revision
  {
    CarriedIsContent(messages[Latest(c).value], c.bundle);
  }

  lemma PublishedIsNamed(server: Server, messages: seq<Message>, unsaved: bool, i: nat)
    requires Ordered(messages) && ServerOk(server, messages, unsaved) && i < |messages|
    ensures Content(messages[i]) == server.published <==> messages[i].revision == server.published.revision
  {
    var last := |messages| - 1;
    assert Carries(messages[i], Content(messages[i]));
    CarriedIsContent(messages[i], Content(messages[i]));
    CarriedIsContent(messages[last], server.published);
    if messages[i].revision == messages[last].revision {
      assert messages[i] == messages[last];
    }
  }

  /** However messages are delivered, lost, repeated or out of order, and as long as every server
      restart has brought back what was published: revisions never go back and each names one content; a
      client holds what the message delivered to it last carries; and that is what the server has published
      exactly when that message has the published revision. */
  lemma ClientsConverge(hashOf: Hash, first: System, actions: seq<Action>)
    requires Initial(first) && Runs(hashOf, first, actions) && !After(hashOf, first, actions).lost
    ensures var s := After(hashOf, first, actions);
      && (forall i, j | 0 <= i <= j < |s.messages| ::
            && s.messages[i].revision <= s.messages[j].revision <= s.server.published.revision
            && (s.messages[i].revision == s.messages[j].revision ==> s.messages[i].json == s.messages[j].json))
      && forall h | h in s.clients ::
           match Latest(s.clients[h])
           case None => s.clients[h].bundle == EMPTY
           case Some(i) =>
             && i < |s.messages| && s.clients[h].bundle == Content(s.messages[i])
             && (s.clients[h].bundle == s.server.published <==> s.messages[i].revision == s.server.published.revision)
  {
    assert Invariant(first);
    RunsKeep(hashOf, first, actions);
    var s := After(hashOf, first, actions);
    MessagesBelow(s.server, s.messages, s.unsaved);
    forall h | h in s.clients && Latest(s.clients[h]).Some?
      ensures var i := Latest(s.clients[h]).value;
        && i < |s.messages| && s.clients[h].bundle == Content(s.messages[i])
        && (s.clients[h].bundle == s.server.published <==> s.messages[i].revision == s.server.published.revision)
    {
      ClientHoldsLatest(s.clients[h], s.messages);
      PublishedIsNamed(s.server, s.messages, s.unsaved, Latest(s.clients[h]).value);
    }
  }

  /** Each publish, saved or not, gets a revision above every earlier one. */
  lemma RevisionsIncrease(hashOf: Hash, first: System, actions: seq<Action>, save: Save)
    requires Initial(first) && Runs(hashOf, first, actions) && !After(hashOf, first, actions).lost
    requires Enabled(After(hashOf, first, actions), Publish(save))
    requires CanPublish(hashOf, After(hashOf, first, actions).server)
    ensures var s := After(hashOf, first, actions);
      var s' := Do(hashOf, s, Publish(save));
      && s'.messages == s.messages + [MessageOf(s'.server.published)]
      && forall i | 0 <= i < |s.messages| :: s.messages[i].revision < s'.server.published.revision
  {
    assert Invariant(first);
    RunsKeep(hashOf, first, actions);
    PublishKeeps(hashOf, After(hashOf, first, actions), save);
  }

  // ----- what a restart goes on from -----

  function NextAfterRestart(hashOf: Hash, s: System, readable: bool, edited: TemplateBundle): TemplateBundle {
    NextBundle(hashOf, Server(edited, LoadedWhen(readable, s.server.disk), s.server.disk))
  }

  lemma AllBelow(messages: seq<Message>, announced: seq<Message>, revision: nat)
    requires forall m | m in announced :: m.revision == revision
    ensures (forall i | 0 <= i < |messages + announced| :: (messages + announced)[i].revision < revision + 1)
      <==> forall i | 0 <= i < |messages| :: messages[i].revision <= revision
  {
    assert forall i | 0 <= i < |messages| :: (messages + announced)[i] == messages[i];
  }

  lemma RestartAnnounces(hashOf: Hash, s: System, draft: TemplateBundle, readable: bool)
    returns (announced: seq<Message>)
    ensures Do(hashOf, s, RestartServer(draft, readable)).messages == s.messages + announced
    ensures forall m | m in announced :: m.revision == LoadedWhen(readable, s.server.disk).revision
  {
    var published := LoadedWhen(readable, s.server.disk);
    announced := if published.revision == 0 then [] else [MessageOf(published)];
  }

  lemma NextRevision(hashOf: Hash, s: System, readable: bool, edited: TemplateBundle)
    requires LoadedWhen(readable, s.server.disk).revision + 1 < 0x1_0000_0000_0000_0000
    ensures NextAfterRestart(hashOf, s, readable, edited).revision == LoadedWhen(readable, s.server.disk).revision + 1
  {
  }

  lemma LoadedIsHighestExactlyWhen(server: Server, messages: seq<Message>, unsaved: bool, readable: bool)
    requires Ordered(messages) && ServerOk(server, messages, unsaved)
    ensures var back := !unsaved && (readable || server.published.revision == 0);
      var loaded := LoadedWhen(readable, server.disk);
      && ((forall i | 0 <= i < |messages| :: messages[i].revision <= loaded.revision) <==> back)
      && (loaded == server.published <==> back)
      && loaded.revision <= server.published.revision
  {
    SavedRevision(server, messages, unsaved);
    MessagesBelow(server, messages, unsaved);
    if messages != [] {
      CarriedIsContent(messages[|messages| - 1], server.published);
    }
  }

  /** As long as every restart before has brought back what was published: the next one does, and the next
      publish after it gets a revision above every message ever sent, exactly when the newest publish was saved
      and the file can be opened, or nothing was ever published. */
  lemma RestartGoesOnExactlyWhen(hashOf: Hash, first: System, actions: seq<Action>, draft: TemplateBundle,
                                 readable: bool, edited: TemplateBundle)
    requires Initial(first) && Runs(hashOf, first, actions) && !After(hashOf, first, actions).lost
    requires After(hashOf, first, actions).server.published.revision + 1 < 0x1_0000_0000_0000_0000
    ensures var s := After(hashOf, first, actions);
      var restarted := Do(hashOf, s, RestartServer(draft, readable));
      var next := NextAfterRestart(hashOf, s, readable, edited);
      && (restarted.server.published == s.server.published <==> BringsBack(s, readable))
      && ((forall i | 0 <= i < |restarted.messages| :: restarted.messages[i].revision < next.revision)
          <==> BringsBack(s, readable))
  {
    assert Invariant(first);
    RunsKeep(hashOf, first, actions);
    GoesOnFrom(hashOf, After(hashOf, first, actions), draft, readable, edited);
  }

  lemma GoesOnFrom(hashOf: Hash, s: System, draft: TemplateBundle, readable: bool, edited: TemplateBundle)
    requires Invariant(s) && s.server.published.revision + 1 < 0x1_0000_0000_0000_0000
    ensures var restarted := Do(hashOf, s, RestartServer(draft, readable));
      var next := NextAfterRestart(hashOf, s, readable, edited);
      && (restarted.server.published == s.server.published <==> BringsBack(s, readable))
      && ((forall i | 0 <= i < |restarted.messages| :: restarted.messages[i].revision < next.revision)
          <==> BringsBack(s, readable))
  {
    var loaded := LoadedWhen(readable, s.server.disk);
    LoadedIsHighestExactlyWhen(s.server, s.messages, s.unsaved, readable);
    var announced := RestartAnnounces(hashOf, s, draft, readable);
    NextRevision(hashOf, s, readable, edited);
    AllBelow(s.messages, announced, loaded.revision);
  }

  // ----- what a client holds, whatever was lost -----

  ghost predicate Delivered(received: seq<nat>, messages: seq<Message>) {
    forall k | 0 <= k < |received| :: received[k] < |messages|
  }

  /** The first of the last deliveries that share a revision. */
  function BlockStart(messages: seq<Message>, received: seq<nat>): (i: nat)
    requires received != [] && Delivered(received, messages)
    ensures i < |messages|
  {
    var n := |received| - 1;
    if n == 0 || messages[received[n - 1]].revision != messages[received[n]].revision then received[n]
    else BlockStart(messages, received[..n])
  }

  ghost predicate HoldsBlockStart(c: Client, messages: seq<Message>) {
    && Delivered(c.received, messages)
    && (if c.received == [] then c.bundle == EMPTY
        else
          && c.bundle == Content(messages[BlockStart(messages, c.received)])
          && c.bundle.revision == messages[Latest(c).value].revision)
  }

  /** What is kept even when a restart has not brought back what was published. */
  ghost predicate Sound(s: System) {
    MessagesSound(s.messages) && ServerSound(s.server) && ClientsSound(s.clients, s.messages)
  }

  ghost predicate MessagesSound(messages: seq<Message>) {
    forall i | 0 <= i < |messages| :: Carries(messages[i], Content(messages[i]))
  }

  ghost predicate ServerSound(server: Server) {
    BundleOk(server.draft) && BundleOk(server.published) && BundleOk(Loaded(server.disk))
  }

  ghost predicate ClientsSound(clients: map<HostId, Client>, messages: seq<Message>) {
    forall h | h in clients :: HoldsBlockStart(clients[h], messages)
  }

  lemma OneClientChanges(clients: map<HostId, Client>, messages: seq<Message>, h: HostId, c: Client)
    requires ClientsSound(clients, messages) && HoldsBlockStart(c, messages)
    ensures ClientsSound(clients[h := c], messages)
  {
    var clients' := clients[h := c];
    forall g | g in clients'
      ensures HoldsBlockStart(clients'[g], messages)
    {
      assert g == h || clients'[g] == clients[g];
    }
  }

  lemma {:induction false} BlockStartStays(messages: seq<Message>, more: Message, received: seq<nat>)
    requires received != [] && Delivered(received, messages)
    ensures BlockStart(messages + [more], received) == BlockStart(messages, received)
  {
    var n := |received| - 1;
    if n > 0 && messages[received[n - 1]].revision == messages[received[n]].revision {
      BlockStartStays(messages, more, received[..n]);
    }
  }

  lemma HoldersStay(clients: map<HostId, Client>, messages: seq<Message>, more: Message)
    requires ClientsSound(clients, messages)
    ensures ClientsSound(clients, messages + [more])
  {
    forall h | h in clients
      ensures HoldsBlockStart(clients[h], messages + [more])
    {
      if clients[h].received != [] {
        BlockStartStays(messages, more, clients[h].received);
      }
    }
  }

  lemma BlockStartGrows(messages: seq<Message>, received: seq<nat>, i: nat)
    requires Delivered(received, messages) && i < |messages|
    ensures Delivered(received + [i], messages)
    ensures BlockStart(messages, received + [i]) ==
      if received == [] || messages[received[|received| - 1]].revision != messages[i].revision then i
      else BlockStart(messages, received)
  {
    assert (received + [i])[..|received|] == received;
  }

  lemma ReceivedIs(held: TemplateBundle, m: Message, b: TemplateBundle)
    requires Carries(m, b)
    ensures Received(held, m) == if b.revision == held.revision then held else b
  {
    BundleRoundTrip(b);
  }

  lemma TakenBundle(c: Client, messages: seq<Message>, i: nat)
    requires HoldsBlockStart(c, messages) && i < |messages| && Carries(messages[i], Content(messages[i]))
    ensures var bundle := Taken(c, messages, i).bundle;
      && bundle.revision == messages[i].revision
      && bundle == if c.bundle.revision == messages[i].revision then c.bundle else Content(messages[i])
  {
    CarriedIsContent(messages[i], Content(messages[i]));
    ReceivedIs(c.bundle, messages[i], Content(messages[i]));
  }

  lemma DeliveryHolds(c: Client, messages: seq<Message>, i: nat)
    requires HoldsBlockStart(c, messages) && i < |messages| && Carries(messages[i], Content(messages[i]))
    ensures HoldsBlockStart(Taken(c, messages, i), messages)
  {
    TakenBundle(c, messages, i);
    BlockStartGrows(messages, c.received, i);
    var c' := Taken(c, messages, i);
    if c.received != [] && c.bundle.revision == messages[i].revision {
      assert c'.bundle == Content(messages[BlockStart(messages, c.received)]);
    } else {
      NewBlock(c, messages, i);
    }
  }

  /** A client that has received nothing holds no revision a message has. */
  lemma NewBlock(c: Client, messages: seq<Message>, i: nat)
    requires HoldsBlockStart(c, messages) && i < |messages| && Carries(messages[i], Content(messages[i]))
    requires c.received == [] || c.bundle.revision != messages[i].revision
    ensures Taken(c, messages, i).bundle == Content(messages[i])
    ensures BlockStart(messages, c.received + [i]) == i
  {
    CarriedIsContent(messages[i], Content(messages[i]));
    TakenBundle(c, messages, i);
    BlockStartGrows(messages, c.received, i);
  }

  lemma DeliveryIsSound(hashOf: Hash, s: System, h: HostId, i: nat)
    requires Sound(s) && Enabled(s, Deliver(h, i))
    ensures Sound(Do(hashOf, s, Deliver(h, i)))
  {
    DeliveryHolds(s.clients[h], s.messages, i);
    OneClientChanges(s.clients, s.messages, h, Taken(s.clients[h], s.messages, i));
  }

  lemma PublishIsSound(hashOf: Hash, s: System, save: Save)
    requires Sound(s) && Enabled(s, Publish(save)) && CanPublish(hashOf, s.server)
    ensures Sound(Do(hashOf, s, Publish(save)))
  {
    var next := NextBundle(hashOf, s.server);
    NextIsOk(hashOf, s.server);
    CarriedIsContent(MessageOf(next), next);
    HoldersStay(s.clients, s.messages, MessageOf(next));
  }

  lemma RestartIsSound(hashOf: Hash, s: System, draft: TemplateBundle, readable: bool)
    requires Sound(s) && Enabled(s, RestartServer(draft, readable))
    ensures Sound(Do(hashOf, s, RestartServer(draft, readable)))
  {
    var published := LoadedWhen(readable, s.server.disk);
    RepairKeepsOk(published, draft);
    if published.revision != 0 {
      CarriedIsContent(MessageOf(published), published);
      HoldersStay(s.clients, s.messages, MessageOf(published));
    }
  }

  lemma StepIsSound(hashOf: Hash, s: System, a: Action)
    requires Sound(s) && Enabled(s, a)
    ensures Sound(Do(hashOf, s, a))
  {
    match a
    case Publish(save) =>
      if CanPublish(hashOf, s.server) {
        PublishIsSound(hashOf, s, save);
      }
    case RestartServer(draft, readable) => RestartIsSound(hashOf, s, draft, readable);
    case Deliver(h, i) => DeliveryIsSound(hashOf, s, h, i);
    case Edit(_) =>
    case RestartClient(h) => FreshIsSound(hashOf, s, h);
  }

  lemma ClientForgets(hashOf: Hash, s: System, h: HostId)
    ensures Do(hashOf, s, RestartClient(h)) == s.(clients := s.clients[h := Client(EMPTY, [])])
  {
  }

  lemma FreshIsSound(hashOf: Hash, s: System, h: HostId)
    requires Sound(s) && h in s.clients
    ensures Sound(Do(hashOf, s, RestartClient(h)))
  {
    var c := Client(EMPTY, []);
    ClientForgets(hashOf, s, h);
    FreshHolds(c, s.messages);
    OneClientChanges(s.clients, s.messages, h, c);
  }

  lemma FreshHolds(c: Client, messages: seq<Message>)
    requires c.received == [] && c.bundle == EMPTY
    ensures HoldsBlockStart(c, messages)
  {
  }

  lemma {:induction false} RunsAreSound(hashOf: Hash, s: System, actions: seq<Action>)
    requires Sound(s) && Runs(hashOf, s, actions)
    ensures Sound(After(hashOf, s, actions))
    decreases |actions|
  {
    if actions != [] {
      StepIsSound(hashOf, s, actions[0]);
      RunsAreSound(hashOf, Do(hashOf, s, actions[0]), actions[1..]);
    }
  }

  /** Whatever was lost on the way or on the server's disk, and in whatever order: a client holds what the first
      of the last deliveries that share a revision carries, and so what was delivered last exactly when those
      two messages carry the same. */
  lemma ClientHoldsBlockStart(hashOf: Hash, first: System, actions: seq<Action>, h: HostId)
    requires Initial(first) && Runs(hashOf, first, actions) && h in After(hashOf, first, actions).clients
    ensures var s := After(hashOf, first, actions);
      var c := s.clients[h];
      && Delivered(c.received, s.messages) && (c.received == [] ==> c.bundle == EMPTY)
      && (c.received != [] ==>
            var start, latest := BlockStart(s.messages, c.received), Latest(c).value;
            && c.bundle == Content(s.messages[start])
            && (c.bundle == Content(s.messages[latest]) <==> s.messages[start].json == s.messages[latest].json))
  {
    assert Sound(first);
    RunsAreSound(hashOf, first, actions);
    var s := After(hashOf, first, actions);
    assert HoldsBlockStart(s.clients[h], s.messages);
  }

  /** The order of delivery matters: the client takes any revision other than its own, an older one too. */
  lemma OlderOverwrites(held: TemplateBundle, newer: TemplateBundle, older: TemplateBundle)
    requires BundleOk(newer) && BundleOk(older) && older.revision < newer.revision && held.revision != newer.revision
    ensures Received(held, MessageOf(newer)) == newer
    ensures Received(Received(held, MessageOf(newer)), MessageOf(older)) == older
  {
    BundleRoundTrip(newer);
    BundleRoundTrip(older);
  }

  lemma FirstPublish(hashOf: Hash, s: System, a: TemplateBundle, save: Save)
    requires s.server.draft == a && s.server.published == EMPTY && BundleOk(a) && hashOf(a) != hashOf(EMPTY)
    ensures var next := NextBundle(hashOf, s.server);
      && Do(hashOf, s, Publish(save)) == s.(
           server := Server(next, next, Stored(next, save, s.server.disk)),
           messages := s.messages + [MessageOf(next)],
           unsaved := save != Saved)
      && Carries(MessageOf(next), next) && next.revision == 1 && next.templates == a.templates
  {
    NextIsOk(hashOf, s.server);
  }

  /** And so it is when the newest publish was not saved: the next publish reuses its revision for other
      content, and a client holding the first never takes the second. */
  lemma FailedSaveReusesRevision(hashOf: Hash, first: System, h: HostId, a: TemplateBundle, b: TemplateBundle)
    returns (actions: seq<Action>)
    requires Initial(first) && h in first.clients && BundleOk(a) && BundleOk(b)
    requires hashOf(a) != hashOf(EMPTY) && hashOf(b) != hashOf(EMPTY)
    ensures Runs(hashOf, first, actions) && ReusesRevision(After(hashOf, first, actions), h, a, b)
    ensures |actions| == 8 && actions[1] == Publish(CutShort) && actions[3] == RestartServer(EMPTY, true)
  {
    actions := TwoRounds(hashOf, first, h, a, b, CutShort, true);
  }

  /** Or when it was saved and the restart cannot open the file. */
  lemma UnopenedBundleReusesRevision(hashOf: Hash, first: System, h: HostId, a: TemplateBundle, b: TemplateBundle)
    returns (actions: seq<Action>)
    requires Initial(first) && h in first.clients && BundleOk(a) && BundleOk(b)
    requires hashOf(a) != hashOf(EMPTY) && hashOf(b) != hashOf(EMPTY)
    ensures Runs(hashOf, first, actions) && ReusesRevision(After(hashOf, first, actions), h, a, b)
    ensures |actions| == 8 && actions[1] == Publish(Saved) && actions[3] == RestartServer(EMPTY, false)
  {
    actions := TwoRounds(hashOf, first, h, a, b, Saved, false);
  }

  /** Two messages share a revision; h was delivered the second and still holds the first. */
  ghost predicate ReusesRevision(s: System, h: HostId, a: TemplateBundle, b: TemplateBundle) {
    && |s.messages| == 2 && s.messages[0].revision == s.messages[1].revision
    && h in s.clients && Latest(s.clients[h]) == Some(1)
    && s.clients[h].bundle.templates == a.templates && s.server.published.templates == b.templates
  }

  lemma TwoRounds(hashOf: Hash, first: System, h: HostId, a: TemplateBundle, b: TemplateBundle, save: Save,
                  readable: bool)
    returns (actions: seq<Action>)
    requires Initial(first) && h in first.clients && BundleOk(a) && BundleOk(b)
    requires hashOf(a) != hashOf(EMPTY) && hashOf(b) != hashOf(EMPTY) && (save == CutShort || !readable)
    ensures Runs(hashOf, first, actions) && ReusesRevision(After(hashOf, first, actions), h, a, b)
    ensures |actions| == 8 && actions[1] == Publish(save) && actions[3] == RestartServer(EMPTY, readable)
  {
    var half := OneRound(hashOf, first, h, a, save, readable);
    var s := After(hashOf, first, half);
    var rest := AnotherRound(hashOf, s, h, b);
    InTurn(hashOf, first, half, rest);
    actions := half + rest;
  }

  /** Publish a, deliver it to h, restart. */
  lemma OneRound(hashOf: Hash, first: System, h: HostId, a: TemplateBundle, save: Save, readable: bool)
    returns (actions: seq<Action>)
    requires Initial(first) && h in first.clients && BundleOk(a) && hashOf(a) != hashOf(EMPTY)
    requires save == CutShort || !readable
    ensures actions == [Edit(a), Publish(save), Deliver(h, 0), RestartServer(EMPTY, readable)]
    ensures Runs(hashOf, first, actions)
    ensures var s := After(hashOf, first, actions);
      && s.server.published == EMPTY && |s.messages| == 1 && s.messages[0].revision == 1
      && h in s.clients && s.clients[h].bundle.revision == 1 && s.clients[h].bundle.templates == a.templates
  {
    var s1 := Do(hashOf, first, Edit(a));
    FirstPublish(hashOf, s1, a, save);
    var s2 := Do(hashOf, s1, Publish(save));
    var s3 := Do(hashOf, s2, Deliver(h, 0));
    CarriedIsContent(s2.messages[0], s2.server.published);
    BundleRoundTrip(s2.server.published);
    assert s3.clients[h].bundle == s2.server.published;
    assert LoadedWhen(readable, s3.server.disk) == EMPTY;
    assert IsRepairOf(EMPTY, EMPTY);
    actions := [Edit(a), Publish(save), Deliver(h, 0), RestartServer(EMPTY, readable)];
    FourSteps(hashOf, first, actions);
  }

  /** Edit to b, publish, deliver to h, which holds the revision already. */
  lemma AnotherRound(hashOf: Hash, s: System, h: HostId, b: TemplateBundle) returns (actions: seq<Action>)
    requires s.server.published == EMPTY && |s.messages| == 1 && s.messages[0].revision == 1
    requires BundleOk(b) && hashOf(b) != hashOf(EMPTY)
    requires h in s.clients && s.clients[h].bundle.revision == 1
    ensures |actions| == 4 && Runs(hashOf, s, actions)
    ensures var s' := After(hashOf, s, actions);
      && |s'.messages| == 2 && s'.messages[0] == s.messages[0] && s'.messages[1].revision == 1
      && h in s'.clients && s'.clients[h].bundle == s.clients[h].bundle && Latest(s'.clients[h]) == Some(1)
      && s'.server.published.templates == b.templates
  {
    var s1 := Do(hashOf, s, Edit(b));
    FirstPublish(hashOf, s1, b, Saved);
    var s2 := Do(hashOf, s1, Publish(Saved));
    var s3 := Do(hashOf, s2, Deliver(h, 1));
    var s4 := Do(hashOf, s3, Edit(b));
    actions := [Edit(b), Publish(Saved), Deliver(h, 1), Edit(b)];
    FourSteps(hashOf, s, actions);
  }

  lemma FourSteps(hashOf: Hash, s: System, actions: seq<Action>)
    requires |actions| == 4 && Enabled(s, actions[0])
    requires var s1 := Do(hashOf, s, actions[0]);
      Enabled(s1, actions[1])
      && var s2 := Do(hashOf, s1, actions[1]);
         Enabled(s2, actions[2])
         && var s3 := Do(hashOf, s2, actions[2]); Enabled(s3, actions[3])
    ensures Runs(hashOf, s, actions)
    ensures After(hashOf, s, actions) ==
      Do(hashOf, Do(hashOf, Do(hashOf, Do(hashOf, s, actions[0]), actions[1]), actions[2]), actions[3])
  {
    var s1 := Do(hashOf, s, actions[0]);
    var s2 := Do(hashOf, s1, actions[1]);
    var s3 := Do(hashOf, s2, actions[2]);
    var s4 := Do(hashOf, s3, actions[3]);
    Unfold(hashOf, s4, [], s4);
    Unfold(hashOf, s3, [actions[3]], s4);
    Unfold(hashOf, s2, [actions[2], actions[3]], s4);
    Unfold(hashOf, s1, [actions[1], actions[2], actions[3]], s4);
    Unfold(hashOf, s, actions, s4);
    assert [actions[3]][1..] == [];
    assert [actions[2], actions[3]][1..] == [actions[3]];
    assert [actions[1], actions[2], actions[3]][1..] == [actions[2], actions[3]];
    assert actions[1..] == [actions[1], actions[2], actions[3]];
  }

  lemma Unfold(hashOf: Hash, s: System, actions: seq<Action>, end: System)
    ensures actions == [] ==> Runs(hashOf, s, actions) && After(hashOf, s, actions) == s
    ensures
      actions != [] && Enabled(s, actions[0]) && Runs(hashOf, Do(hashOf, s, actions[0]), actions[1..])
      && After(hashOf, Do(hashOf, s, actions[0]), actions[1..]) == end
      ==> Runs(hashOf, s, actions) && After(hashOf, s, actions) == end
  {
  }

  lemma {:induction false} InTurn(hashOf: Hash, s: System, a: seq<Action>, b: seq<Action>)
    requires Runs(hashOf, s, a) && Runs(hashOf, After(hashOf, s, a), b)
    ensures Runs(hashOf, s, a + b) && After(hashOf, s, a + b) == After(hashOf, After(hashOf, s, a), b)
    decreases |a|
  {
    RestOfConcat(a, b);
    if a != [] {
      InTurn(hashOf, Do(hashOf, s, a[0]), a[1..], b);
    }
  }
}
