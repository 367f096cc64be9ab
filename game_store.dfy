/** The game's single store: the phase machine, the two case-file slices,
    one chat session per interrogated suspect, and the final accusation.

    Every action is first a pure transition on `StoreState`; the `Store`
    class holds the same fields and each of its methods performs exactly
    one transition. The two asynchronous actions are split at their
    `await`: `startCase` into `StartCase` and `CaseGenerated`, and
    `sendMessage` into `SendBegin`, which hands back a ticket, and
    `SendComplete`, which receives the chat's outcome. Nothing ties a
    completion to the state it started from, exactly as in the store. */
module GameStore {
  import opened Js
  import opened CaseFile

  // ---------------------------------------------------------------------
  // Data model
  // ---------------------------------------------------------------------

  datatype Role = Player | SuspectRole

  datatype ChatMessage = ChatMessage(role: Role, text: string, timestamp: int)

  /** The SDK chat object, known by the system instruction it was opened with. */
  datatype ChatHandle = ChatHandle(systemInstruction: seq<SuspectBlock>)

  datatype SuspectSession = SuspectSession(
    suspectName: string,
    chatSession: ChatHandle,
    history: seq<ChatMessage>,
    conversationCount: int)

  datatype Phase = Setup | Generating | Briefing | Investigation | Accusation | Resolved

  datatype AccusationResult = AccusationResult(
    accusedName: string,
    isCorrect: bool,
    trueKiller: string,
    explanation: string)

  datatype StoreState = StoreState(
    phase: Phase,
    seed: Option<PlayerSeed>,
    backend: Option<CaseFileBackend>,
    player: Option<CaseFilePlayer>,
    activeSuspectName: Option<string>,
    sessions: map<string, SuspectSession>,
    totalConversationCount: int,
    accusationResult: Option<AccusationResult>,
    error: Option<string>,
    isResponding: bool)

  const ThemeRequiredError := "Please enter a case personalization or theme before starting."
  const GenerationFailedError := "Failed to generate case. Check your API key or try again."
  const ReplyFailedError := "Failed to get a response. Try again."
  const UnknownKiller := "Unknown"

  const DefaultSeed := PlayerSeed("", "", 5, 20, 5)

  /** The store as created, and as every reset leaves it. */
  function Initial(): StoreState {
    StoreState(Setup, Some(DefaultSeed), None, None, None, map[], 0, None, None, false)
  }

  // ---------------------------------------------------------------------
  // setSeed
  // ---------------------------------------------------------------------

  /** `Partial<PlayerSeed>`: an absent key is `None`. */
  datatype SeedPatch = SeedPatch(
    theme: Option<string>,
    freeText: Option<string>,
    difficulty: Option<int>,
    duration: Option<int>,
    intensity: Option<int>)

  /** `{ ...base, ...patch }` */
  function MergeSeed(base: PlayerSeed, patch: SeedPatch): PlayerSeed {
    PlayerSeed(
      patch.theme.GetOr(base.theme),
      patch.freeText.GetOr(base.freeText),
      patch.difficulty.GetOr(base.difficulty),
      patch.duration.GetOr(base.duration),
      patch.intensity.GetOr(base.intensity))
  }

  /** `{ ...p, ...q }` on two patches: later keys win. */
  function Overlay(p: SeedPatch, q: SeedPatch): SeedPatch {
    SeedPatch(
      if q.theme.Some? then q.theme else p.theme,
      if q.freeText.Some? then q.freeText else p.freeText,
      if q.difficulty.Some? then q.difficulty else p.difficulty,
      if q.duration.Some? then q.duration else p.duration,
      if q.intensity.Some? then q.intensity else p.intensity)
  }

  function OnSetSeed(s: StoreState, patch: SeedPatch): StoreState {
    s.(seed := Some(MergeSeed(s.seed.GetOr(DefaultSeed), patch)))
  }

  /** Each key the patch carries replaces that field; every other field keeps
      its value from the current seed (or from the default seed when there
      is none); nothing but the seed changes. */
  lemma SetSeedMerges(s: StoreState, patch: SeedPatch)
    ensures var t := OnSetSeed(s, patch);
      var base := if s.seed.Some? then s.seed.value else DefaultSeed;
      && t.seed.Some?
      && t.seed.value.theme == (if patch.theme.Some? then patch.theme.value else base.theme)
      && t.seed.value.freeText == (if patch.freeText.Some? then patch.freeText.value else base.freeText)
      && t.seed.value.difficulty == (if patch.difficulty.Some? then patch.difficulty.value else base.difficulty)
      && t.seed.value.duration == (if patch.duration.Some? then patch.duration.value else base.duration)
      && t.seed.value.intensity == (if patch.intensity.Some? then patch.intensity.value else base.intensity)
      && t.(seed := s.seed) == s
  {
  }

  /** Two updates in a row are one update with the later keys winning; an
      empty patch leaves an existing seed as it is, and installs the default
      seed where there is none. */
  lemma SetSeedComposes(s: StoreState, p: SeedPatch, q: SeedPatch)
    ensures OnSetSeed(OnSetSeed(s, p), q) == OnSetSeed(s, Overlay(p, q))
    ensures s.seed.Some? ==> OnSetSeed(s, SeedPatch(None, None, None, None, None)) == s
    ensures s.seed.None? ==> OnSetSeed(s, SeedPatch(None, None, None, None, None)) == s.(seed := Some(DefaultSeed))
  {
  }

  // ---------------------------------------------------------------------
  // startCase
  // ---------------------------------------------------------------------

  /** The synchronous part of `startCase`: refuse a missing or blank theme,
      otherwise enter the generating phase. */
  function OnStartCase(s: StoreState): StoreState {
    if s.seed.None? || !Truthy(Trim(s.seed.value.theme)) then
      s.(error := Some(ThemeRequiredError))
    else
      s.(phase := Generating, error := None)
  }

  /** A theme with at least one non-whitespace character starts generation
      and clears the error; any other seed only sets the error, leaving the
      phase and everything else alone. */
  lemma StartCaseCases(s: StoreState)
    ensures var t := OnStartCase(s);
      var accepted := s.seed.Some? &&
        exists i :: 0 <= i < |s.seed.value.theme| && !IsWhitespace(s.seed.value.theme[i]);
      && (accepted ==> t == s.(phase := Generating, error := None))
      && (!accepted ==> t == s.(error := Some(ThemeRequiredError)))
  {
    if s.seed.Some? {
      TrimShape(s.seed.value.theme);
    }
  }

  /** The end of `startCase`: the generated slices and the briefing phase,
      or the failure message and a return to setup. */
  function OnCaseGenerated(s: StoreState, generated: Option<CaseFiles>): StoreState {
    match generated
    case Some(files) => s.(backend := Some(files.backend), player := Some(files.player), phase := Briefing)
    case None => s.(error := Some(GenerationFailedError), phase := Setup)
  }

  // ---------------------------------------------------------------------
  // proceedToInvestigation
  // ---------------------------------------------------------------------

  /** No guard: the phase is set whatever it was. */
  function OnProceedToInvestigation(s: StoreState): StoreState {
    s.(phase := Investigation)
  }

  // ---------------------------------------------------------------------
  // startInterrogation
  // ---------------------------------------------------------------------

  function NamedSuspect(name: string): Suspect -> bool {
    (x: Suspect) => x.name == name
  }

  /** The session opened for a suspect: a chat carrying the suspect's system
      prompt and an empty history. */
  function NewSession(suspect: Suspect, report: CaseReport): SuspectSession {
    SuspectSession(suspect.name, ChatHandle(BuildSuspectSystemPrompt(suspect, report)), [], 0)
  }

  function OnStartInterrogation(s: StoreState, name: string): StoreState {
    if s.backend.None? || s.player.None? then s
    else if name in s.sessions then s.(activeSuspectName := Some(name))
    else
      match FindIndex(s.backend.value.suspects, NamedSuspect(name))
      case None => s
      case Some(i) =>
        s.(activeSuspectName := Some(name),
           sessions := s.sessions[name := NewSession(s.backend.value.suspects[i], s.player.value.caseReport)])
  }

  /** Without a case nothing happens; an existing session is made active and
      kept as it is; otherwise, for a name the backend knows, a session is
      opened on the first suspect of that name with that suspect's system
      prompt, and for an unknown name nothing happens. Other sessions are
      never touched. */
  lemma StartInterrogationCases(s: StoreState, name: string)
    ensures var t := OnStartInterrogation(s, name);
      && (s.backend.None? || s.player.None? ==> t == s)
      && (s.backend.Some? && s.player.Some? && name in s.sessions ==>
            t == s.(activeSuspectName := Some(name)))
      && (s.backend.Some? && s.player.Some? && name !in s.sessions ==>
            ((forall j :: 0 <= j < |s.backend.value.suspects| ==> s.backend.value.suspects[j].name != name) ==> t == s)
            && (forall i :: (0 <= i < |s.backend.value.suspects| && s.backend.value.suspects[i].name == name
                  && (forall j :: 0 <= j < i ==> s.backend.value.suspects[j].name != name)) ==>
                  t == s.(activeSuspectName := Some(name),
                          sessions := s.sessions[name := SuspectSession(name,
                            ChatHandle(BuildSuspectSystemPrompt(s.backend.value.suspects[i], s.player.value.caseReport)),
                            [], 0)])))
  {
    if s.backend.Some? && s.player.Some? && name !in s.sessions {
      var xs := s.backend.value.suspects;
      forall i | 0 <= i < |xs| && xs[i].name == name && (forall j :: 0 <= j < i ==> xs[j].name != name)
        ensures FindIndex(xs, NamedSuspect(name)) == Some(i)
      {
        FirstMatchIsFound(xs, NamedSuspect(name), i);
      }
    }
  }

  lemma FirstMatchIsFound<T>(xs: seq<T>, p: T -> bool, i: nat)
    requires i < |xs| && p(xs[i]) && forall j :: 0 <= j < i ==> !p(xs[j])
    ensures FindIndex(xs, p) == Some(i)
  {
    assert p(xs[i]);
    var r := FindIndex(xs, p);
    assert r.Some? && p(xs[r.value]);
  }

  /** Opening the same interrogation twice is opening it once. */
  lemma StartInterrogationIdempotent(s: StoreState, name: string)
    ensures OnStartInterrogation(OnStartInterrogation(s, name), name) == OnStartInterrogation(s, name)
  {
  }

  // ---------------------------------------------------------------------
  // sendMessage
  // ---------------------------------------------------------------------

  /** What the send remembers across its `await`: the key it writes to, the
      session as it was before the optimistic update, and the player's
      message. */
  datatype PendingSend = PendingSend(name: string, session: SuspectSession, message: ChatMessage)

  datatype ChatOutcome = Replied(text: string, timestamp: int) | ChatFailed

  /** The guard of `sendMessage`. */
  predicate CanSend(s: StoreState) {
    TruthyOpt(s.activeSuspectName) && s.activeSuspectName.value in s.sessions && !s.isResponding
  }

  /** The ticket `sendMessage` keeps, if its guard lets it through; `now`
      stands for `Date.now()`. */
  function BeginTicket(s: StoreState, text: string, now: int): Option<PendingSend> {
    if CanSend(s) then
      Some(PendingSend(s.activeSuspectName.value, s.sessions[s.activeSuspectName.value],
                       ChatMessage(Player, text, now)))
    else None
  }

  /** The optimistic update: append the player's message and lock input. */
  function OnSendBegin(s: StoreState, text: string, now: int): StoreState {
    match BeginTicket(s, text, now)
    case None => s
    case Some(t) =>
      s.(isResponding := true,
         sessions := s.sessions[t.name := t.session.(history := t.session.history + [t.message])])
  }

  /** The end of `sendMessage`. A reply rewrites the session from the ticket
      with both messages appended and both counters raised; a failure puts
      the ticket's session back, dropping the optimistic message. Either way
      input is unlocked and the ticket's key is written, whatever the store
      holds by then. */
  function OnSendComplete(s: StoreState, t: PendingSend, outcome: ChatOutcome): StoreState {
    match outcome
    case Replied(text, now) =>
      s.(isResponding := false,
         totalConversationCount := s.totalConversationCount + 1,
         sessions := s.sessions[t.name := t.session.(
            history := t.session.history + [t.message, ChatMessage(SuspectRole, text, now)],
            conversationCount := t.session.conversationCount + 1)])
    case ChatFailed =>
      s.(isResponding := false,
         error := Some(ReplyFailedError),
         sessions := s.sessions[t.name := t.session])
  }

  /** The guard, both ways: a send starts exactly when a non-empty active name
      has a session and no reply is pending; a refused send changes nothing;
      an accepted one appends the player's message to that session only and
      locks input. */
  lemma SendBeginGuard(s: StoreState, text: string, now: int)
    ensures BeginTicket(s, text, now).Some? <==>
      s.activeSuspectName.Some? && s.activeSuspectName.value != ""
      && s.activeSuspectName.value in s.sessions && !s.isResponding
    ensures BeginTicket(s, text, now).None? ==> OnSendBegin(s, text, now) == s
    ensures BeginTicket(s, text, now).Some? ==>
      var name := s.activeSuspectName.value;
      var t := OnSendBegin(s, text, now);
      && t.isResponding
      && t.sessions.Keys == s.sessions.Keys
      && t.sessions[name].history == s.sessions[name].history + [ChatMessage(Player, text, now)]
      && t.sessions[name].conversationCount == s.sessions[name].conversationCount
      && (forall k :: k in s.sessions && k != name ==> t.sessions[k] == s.sessions[k])
      && t.(isResponding := s.isResponding, sessions := s.sessions) == s
  {
  }

  /** A send that is answered, with nothing in between, adds the player's
      message and the reply to the active session, counts one exchange in
      the session and in the total, and unlocks input. */
  lemma SendRoundTrip(s: StoreState, text: string, now: int, reply: string, later: int)
    requires CanSend(s)
    ensures var name := s.activeSuspectName.value;
      var t := OnSendComplete(OnSendBegin(s, text, now), BeginTicket(s, text, now).value, Replied(reply, later));
      && t.sessions[name].history ==
           s.sessions[name].history + [ChatMessage(Player, text, now), ChatMessage(SuspectRole, reply, later)]
      && t.sessions[name].conversationCount == s.sessions[name].conversationCount + 1
      && t.totalConversationCount == s.totalConversationCount + 1
      && t == s.(totalConversationCount := s.totalConversationCount + 1,
                 sessions := s.sessions[name := t.sessions[name]])
  {
  }

  /** A send that fails, with nothing in between, leaves every session exactly
      as it was before the send, unlocks input and reports the failure. */
  lemma SendFailureRollsBack(s: StoreState, text: string, now: int)
    requires CanSend(s)
    ensures var t := OnSendComplete(OnSendBegin(s, text, now), BeginTicket(s, text, now).value, ChatFailed);
      && t.sessions == s.sessions
      && t == s.(error := Some(ReplyFailedError))
  {
    var name := s.activeSuspectName.value;
    var t := OnSendComplete(OnSendBegin(s, text, now), BeginTicket(s, text, now).value, ChatFailed);
    assert t.sessions == s.sessions[name := s.sessions[name]];
  }

  /** A reply that arrives after a reset brings its session back into the
      freshly reset store and counts one exchange there. */
  lemma StaleReplyAfterReset(s: StoreState, t: PendingSend, reply: string, later: int)
    ensures var r := OnSendComplete(OnResetGame(s), t, Replied(reply, later));
      && r.sessions.Keys == {t.name}
      && r.sessions[t.name].conversationCount == t.session.conversationCount + 1
      && r.totalConversationCount == 1
      && r.phase == Setup && r.backend.None?
  {
  }

  /** So does a generated case: a generation that finishes after a reset
      moves the reset store to the briefing with the new slices. */
  lemma StaleCaseAfterReset(s: StoreState, files: CaseFiles)
    ensures var r := OnCaseGenerated(OnResetGame(s), Some(files));
      && r.phase == Briefing
      && r.backend == Some(files.backend) && r.player == Some(files.player)
      && r.activeSuspectName.None? && r.sessions == map[]
  {
  }

  // ---------------------------------------------------------------------
  // makeAccusation
  // ---------------------------------------------------------------------

  function IsGuiltySuspect(x: Suspect): bool {
    x.isGuilty
  }

  /** The verdict on `accused`: the first guilty suspect is the killer,
      "Unknown" when there is none, and the explanation is the true sequence
      of events. */
  function Verdict(b: CaseFileBackend, accused: string): AccusationResult {
    var killer := FindIndex(b.suspects, IsGuiltySuspect);
    AccusationResult(
      accused,
      killer.Some? && accused == b.suspects[killer.value].name,
      if killer.Some? then b.suspects[killer.value].name else UnknownKiller,
      b.storyline.trueSequenceOfEvents)
  }

  /** No phase guard: any store holding a backend resolves. */
  function OnMakeAccusation(s: StoreState, accused: string): StoreState {
    if s.backend.None? then s
    else s.(phase := Resolved, accusationResult := Some(Verdict(s.backend.value, accused)))
  }

  /** The killer named is the first guilty suspect in the list; with no guilty
      suspect it is "Unknown" and no accusation is correct. */
  lemma VerdictNamesFirstGuilty(b: CaseFileBackend, accused: string)
    ensures var v := Verdict(b, accused);
      && v.accusedName == accused
      && v.explanation == b.storyline.trueSequenceOfEvents
      && ((forall j :: 0 <= j < |b.suspects| ==> !b.suspects[j].isGuilty) ==>
            v.trueKiller == UnknownKiller && !v.isCorrect)
      && (forall i :: (0 <= i < |b.suspects| && b.suspects[i].isGuilty
            && (forall j :: 0 <= j < i ==> !b.suspects[j].isGuilty)) ==>
            v.trueKiller == b.suspects[i].name && (v.isCorrect <==> accused == b.suspects[i].name))
  {
    forall i | 0 <= i < |b.suspects| && b.suspects[i].isGuilty && (forall j :: 0 <= j < i ==> !b.suspects[j].isGuilty)
      ensures FindIndex(b.suspects, IsGuiltySuspect) == Some(i)
    {
      FirstMatchIsFound(b.suspects, IsGuiltySuspect, i);
    }
  }

  /** On a case that follows the generation rules, the accusation is correct
      exactly when it names the storyline's murderer, who is then the killer
      reported. */
  lemma VerdictOnWellFormedCase(b: CaseFileBackend, accused: string)
    requires WellFormedBackend(b)
    ensures Verdict(b, accused).trueKiller == b.storyline.murdererName
    ensures Verdict(b, accused).isCorrect <==> accused == b.storyline.murdererName
  {
    var i := GuiltyWitness(b.suspects);
    UniqueGuiltyIsFirst(b.suspects, i);
    FirstMatchIsFound(b.suspects, IsGuiltySuspect, i);
  }

  lemma {:induction false} GuiltyWitness(suspects: seq<Suspect>) returns (i: nat)
    requires GuiltyCount(suspects) >= 1
    ensures i < |suspects| && suspects[i].isGuilty
  {
    if suspects[0].isGuilty {
      i := 0;
    } else {
      var k := GuiltyWitness(suspects[1..]);
      i := k + 1;
    }
  }

  /** An accusation resolves the case, whatever the phase, as soon as a
      backend slice is held; without one nothing changes. */
  lemma AccusationIgnoresPhase(s: StoreState, accused: string)
    ensures s.backend.None? ==> OnMakeAccusation(s, accused) == s
    ensures s.backend.Some? ==>
      OnMakeAccusation(s, accused).phase == Resolved
      && OnMakeAccusation(s, accused).accusationResult == Some(Verdict(s.backend.value, accused))
  {
  }

  // ---------------------------------------------------------------------
  // resetGame
  // ---------------------------------------------------------------------

  function OnResetGame(s: StoreState): StoreState {
    Initial()
  }

  /** A reset forgets everything, so resetting twice is resetting once. */
  lemma ResetForgetsEverything(s: StoreState, s': StoreState)
    ensures OnResetGame(s) == OnResetGame(s') == OnResetGame(OnResetGame(s))
    ensures OnResetGame(s).seed == Some(PlayerSeed("", "", 5, 20, 5))
    ensures OnResetGame(s).sessions == map[] && OnResetGame(s).backend.None? && !OnResetGame(s).isResponding
  {
  }

  // ---------------------------------------------------------------------
  // Selectors
  // ---------------------------------------------------------------------

  /** `useActiveHistory` */
  function ActiveHistory(s: StoreState): (h: seq<ChatMessage>)
    ensures TruthyOpt(s.activeSuspectName) && s.activeSuspectName.value in s.sessions ==>
              h == s.sessions[s.activeSuspectName.value].history
    ensures !(TruthyOpt(s.activeSuspectName) && s.activeSuspectName.value in s.sessions) ==> h == []
  {
    if TruthyOpt(s.activeSuspectName) && s.activeSuspectName.value in s.sessions
    then s.sessions[s.activeSuspectName.value].history
    else []
  }

  function ProfileNamed(name: string): CharacterProfile -> bool {
    (p: CharacterProfile) => p.name == name
  }

  /** `useActiveSuspectProfile` */
  function ActiveSuspectProfile(s: StoreState): (r: Option<CharacterProfile>)
    ensures r.Some? <==>
      TruthyOpt(s.activeSuspectName) && s.player.Some?
      && exists j :: 0 <= j < |s.player.value.characterProfiles|
           && s.player.value.characterProfiles[j].name == s.activeSuspectName.value
    ensures r.Some? ==>
      exists j :: 0 <= j < |s.player.value.characterProfiles|
        && r.value == s.player.value.characterProfiles[j]
        && r.value.name == s.activeSuspectName.value
        && forall k :: 0 <= k < j ==> s.player.value.characterProfiles[k].name != s.activeSuspectName.value
  {
    if !TruthyOpt(s.activeSuspectName) || s.player.None? then None
    else
      match FindIndex(s.player.value.characterProfiles, ProfileNamed(s.activeSuspectName.value))
      case None => None
      case Some(i) => Some(s.player.value.characterProfiles[i])
  }

  /** On a case that follows the generation rules, opening the interrogation
      of any suspect the backend knows shows that suspect's profile: the
      profile rule guarantees one exists. */
  lemma InterrogatedSuspectHasProfile(s: StoreState, raw: CaseFileRaw, name: string)
    requires WellFormedCase(raw)
    requires s.backend == Some(Split(raw).backend) && s.player == Some(Split(raw).player)
    requires name != "" && HasSuspect(raw.suspects, name)
    ensures var t := OnStartInterrogation(s, name);
      && t.activeSuspectName == Some(name)
      && ActiveSuspectProfile(t).Some? && ActiveSuspectProfile(t).value.name == name
  {
    var i :| 0 <= i < |raw.suspects| && raw.suspects[i].name == name;
    assert NamedSuspect(name)(raw.suspects[i]);
    assert HasProfile(raw.characterProfiles, raw.suspects[i].name);
  }

  /** Both selectors read only the player-safe parts: the sessions and the
      player slice, never the backend slice. */
  lemma SelectorsIgnoreBackend(s: StoreState, b: Option<CaseFileBackend>)
    ensures ActiveHistory(s.(backend := b)) == ActiveHistory(s)
    ensures ActiveSuspectProfile(s.(backend := b)) == ActiveSuspectProfile(s)
  {
  }

  /** Right after an interrogation opens on a fresh session, the active
      history is empty; after a round trip it ends with the two messages. */
  lemma ActiveHistoryAfterRoundTrip(s: StoreState, text: string, now: int, reply: string, later: int)
    requires CanSend(s)
    ensures var t := OnSendComplete(OnSendBegin(s, text, now), BeginTicket(s, text, now).value, Replied(reply, later));
      ActiveHistory(t) == ActiveHistory(s) + [ChatMessage(Player, text, now), ChatMessage(SuspectRole, reply, later)]
  {
  }

  // ---------------------------------------------------------------------
  // Invariants
  // ---------------------------------------------------------------------

  function Replies(h: seq<ChatMessage>): nat {
    if h == [] then 0 else Replies(h[..|h| - 1]) + (if h[|h| - 1].role == SuspectRole then 1 else 0)
  }

  lemma RepliesAppend(h: seq<ChatMessage>, m: ChatMessage)
    ensures Replies(h + [m]) == Replies(h) + (if m.role == SuspectRole then 1 else 0)
  {
    assert (h + [m])[..|h + [m]| - 1] == h;
  }

  /** A session is stored under its suspect's name and counts the suspect's
      replies in its history. */
  predicate SessionValid(k: string, x: SuspectSession) {
    x.suspectName == k && x.conversationCount == Replies(x.history)
  }

  /** The slices are loaded together and share their clue list, and every
      session is valid. */
  predicate Valid(s: StoreState) {
    && (s.backend.Some? <==> s.player.Some?)
    && (s.backend.Some? ==> s.backend.value.clues == s.player.value.clues)
    && (forall k :: k in s.sessions ==> SessionValid(k, s.sessions[k]))
  }

  predicate TicketValid(t: PendingSend) {
    SessionValid(t.name, t.session) && t.message.role == Player
  }

  predicate FilesValid(files: Option<CaseFiles>) {
    files.Some? ==> files.value.backend.clues == files.value.player.clues
  }

  /** Every case the generator produces has its clue list shared. */
  lemma GeneratedFilesValid(response: Option<string>, parse: string -> Option<CaseFileRaw>)
    ensures FilesValid(GenerateCaseFile(response, parse))
  {
  }

  /** Every ticket handed out by a valid store is valid. */
  lemma BeginTicketValid(s: StoreState, text: string, now: int)
    requires Valid(s) && BeginTicket(s, text, now).Some?
    ensures TicketValid(BeginTicket(s, text, now).value)
  {
  }

  /** One event of the store's life, with an action's parameters. */
  datatype Event =
    | SeedEdited(patch: SeedPatch)
    | CaseStarted
    | CaseReady(generated: Option<CaseFiles>)
    | InvestigationOpened
    | InterrogationOpened(name: string)
    | MessageSent(text: string, now: int)
    | ReplyArrived(ticket: PendingSend, outcome: ChatOutcome)
    | AccusationMade(accused: string)
    | GameReset

  function Step(s: StoreState, e: Event): StoreState {
    match e
    case SeedEdited(patch) => OnSetSeed(s, patch)
    case CaseStarted => OnStartCase(s)
    case CaseReady(generated) => OnCaseGenerated(s, generated)
    case InvestigationOpened => OnProceedToInvestigation(s)
    case InterrogationOpened(name) => OnStartInterrogation(s, name)
    case MessageSent(text, now) => OnSendBegin(s, text, now)
    case ReplyArrived(ticket, outcome) => OnSendComplete(s, ticket, outcome)
    case AccusationMade(accused) => OnMakeAccusation(s, accused)
    case GameReset => OnResetGame(s)
  }

  function Run(s: StoreState, events: seq<Event>): StoreState
    decreases |events|
  {
    if events == [] then s else Run(Step(s, events[0]), events[1..])
  }

  /** The inputs the store can receive from outside: generated files come from
      `generateCaseFile`, which shares one clue list, and every ticket was
      handed out by a valid store. */
  predicate EventValid(e: Event) {
    && (e.CaseReady? ==> FilesValid(e.generated))
    && (e.ReplyArrived? ==> TicketValid(e.ticket))
  }

  lemma StepPreservesValid(s: StoreState, e: Event)
    requires Valid(s) && EventValid(e)
    ensures Valid(Step(s, e))
  {
    match e
    case InterrogationOpened(name) => StartInterrogationPreservesValid(s, name);
    case MessageSent(text, now) => SendBeginPreservesValid(s, text, now);
    case ReplyArrived(ticket, outcome) => SendCompletePreservesValid(s, ticket, outcome);
    case _ =>
  }

  lemma StartInterrogationPreservesValid(s: StoreState, name: string)
    requires Valid(s)
    ensures Valid(OnStartInterrogation(s, name))
  {
    if s.backend.Some? && s.player.Some? && name !in s.sessions {
      var i := FindIndex(s.backend.value.suspects, NamedSuspect(name));
      if i.Some? {
        assert s.backend.value.suspects[i.value].name == name;
      }
    }
  }

  lemma SendBeginPreservesValid(s: StoreState, text: string, now: int)
    requires Valid(s)
    ensures Valid(OnSendBegin(s, text, now))
  {
    if CanSend(s) {
      var name := s.activeSuspectName.value;
      var x := s.sessions[name];
      var m := ChatMessage(Player, text, now);
      RepliesAppend(x.history, m);
      var t := OnSendBegin(s, text, now);
      assert t.sessions == s.sessions[name := x.(history := x.history + [m])];
      assert SessionValid(name, x.(history := x.history + [m]));
      assert t.backend == s.backend && t.player == s.player;
    }
  }

  lemma SendCompletePreservesValid(s: StoreState, ticket: PendingSend, outcome: ChatOutcome)
    requires Valid(s) && TicketValid(ticket)
    ensures Valid(OnSendComplete(s, ticket, outcome))
  {
    if outcome.Replied? {
      var h := ticket.session.history;
      var m := ChatMessage(SuspectRole, outcome.text, outcome.timestamp);
      RepliesAppend(h, ticket.message);
      RepliesAppend(h + [ticket.message], m);
      assert h + [ticket.message, m] == h + [ticket.message] + [m];
    }
  }

  /** Along any run from a valid store on valid inputs the store stays valid:
      in particular the backend and player slices are never out of step. */
  lemma {:induction false} RunPreservesValid(s: StoreState, events: seq<Event>)
    requires Valid(s)
    requires forall i :: 0 <= i < |events| ==> EventValid(events[i])
    ensures Valid(Run(s, events))
    decreases |events|
  {
    if events != [] {
      StepPreservesValid(s, events[0]);
      RunPreservesValid(Step(s, events[0]), events[1..]);
    }
  }

  /** No action ever enters the accusation phase: a run that does not start
      there never reaches it. */
  lemma {:induction false} AccusationPhaseUnreachable(s: StoreState, events: seq<Event>)
    requires s.phase != Accusation
    ensures Run(s, events).phase != Accusation
    decreases |events|
  {
    if events != [] {
      AccusationPhaseUnreachable(Step(s, events[0]), events[1..]);
    }
  }

  /** The total exchange count never falls except on reset. */
  lemma StepKeepsTotal(s: StoreState, e: Event)
    requires !e.GameReset?
    ensures Step(s, e).totalConversationCount >= s.totalConversationCount
    ensures Step(s, e).totalConversationCount > s.totalConversationCount <==> e.ReplyArrived? && e.outcome.Replied?
  {
  }

  /** Because `proceedToInvestigation` has no guard, the investigation phase
      is reachable from a fresh store with no case loaded. */
  lemma InvestigationWithoutCase()
    ensures var s := Run(Initial(), [InvestigationOpened]);
      s.phase == Investigation && s.backend.None? && s.player.None?
  {
    assert Run(Initial(), [InvestigationOpened]) == Run(Step(Initial(), InvestigationOpened), []);
  }

  // ---------------------------------------------------------------------
  // The store object
  // ---------------------------------------------------------------------

  class Store {
    var phase: Phase
    var seed: Option<PlayerSeed>
    var backend: Option<CaseFileBackend>
    var player: Option<CaseFilePlayer>
    var activeSuspectName: Option<string>
    var sessions: map<string, SuspectSession>
    var totalConversationCount: int
    var accusationResult: Option<AccusationResult>
    var error: Option<string>
    var isResponding: bool

    function State(): StoreState
      reads this
    {
      StoreState(phase, seed, backend, player, activeSuspectName, sessions,
                 totalConversationCount, accusationResult, error, isResponding)
    }

    predicate ValidStore()
      reads this
    {
      Valid(State())
    }

    constructor ()
      ensures State() == Initial() && ValidStore()
    {
      phase, seed, backend, player := Setup, Some(DefaultSeed), None, None;
      activeSuspectName, sessions, totalConversationCount := None, map[], 0;
      accusationResult, error, isResponding := None, None, false;
    }

    method SetSeed(patch: SeedPatch)
      modifies this
      ensures State() == OnSetSeed(old(State()), patch)
      ensures old(ValidStore()) ==> ValidStore()
    {
      seed := Some(MergeSeed(if seed.Some? then seed.value else DefaultSeed, patch));
    }

    method StartCase()
      modifies this
      ensures State() == OnStartCase(old(State()))
      ensures old(ValidStore()) ==> ValidStore()
    {
      if seed.None? || !Truthy(Trim(seed.value.theme)) {
        error := Some(ThemeRequiredError);
        return;
      }
      phase, error := Generating, None;
    }

    /** The end of `startCase`; `generated` is what `GenerateCaseFile`
        returned, `None` when it failed. */
    method CaseGenerated(generated: Option<CaseFiles>)
      modifies this
      ensures State() == OnCaseGenerated(old(State()), generated)
      ensures old(ValidStore()) && FilesValid(generated) ==> ValidStore()
    {
      ghost var s := State();
      if generated.Some? {
        backend, player, phase := Some(generated.value.backend), Some(generated.value.player), Briefing;
      } else {
        error, phase := Some(GenerationFailedError), Setup;
      }
      if Valid(s) && FilesValid(generated) {
        StepPreservesValid(s, CaseReady(generated));
      }
    }

    method ProceedToInvestigation()
      modifies this
      ensures State() == OnProceedToInvestigation(old(State()))
      ensures old(ValidStore()) ==> ValidStore()
    {
      phase := Investigation;
    }

    method StartInterrogation(name: string)
      modifies this
      ensures State() == OnStartInterrogation(old(State()), name)
      ensures old(ValidStore()) ==> ValidStore()
    {
      ghost var s := State();
      if backend.None? || player.None? {
        return;
      }
      if name in sessions {
        activeSuspectName := Some(name);
        return;
      }
      var found := FindIndex(backend.value.suspects, NamedSuspect(name));
      if found.None? {
        return;
      }
      var suspect := backend.value.suspects[found.value];
      var session := NewSession(suspect, player.value.caseReport);
      activeSuspectName := Some(name);
      sessions := sessions[name := session];
      if Valid(s) {
        StepPreservesValid(s, InterrogationOpened(name));
      }
    }

    /** The optimistic half of `sendMessage`; `now` is `Date.now()`. */
    method SendBegin(text: string, now: int) returns (ticket: Option<PendingSend>)
      modifies this
      ensures ticket == BeginTicket(old(State()), text, now)
      ensures State() == OnSendBegin(old(State()), text, now)
      ensures old(ValidStore()) ==> ValidStore() && (ticket.Some? ==> TicketValid(ticket.value))
    {
      ghost var s := State();
      if activeSuspectName.None? || activeSuspectName.value == "" || activeSuspectName.value !in sessions || isResponding {
        return None;
      }
      var name := activeSuspectName.value;
      var session := sessions[name];
      var message := ChatMessage(Player, text, now);
      isResponding := true;
      sessions := sessions[name := session.(history := session.history + [message])];
      ticket := Some(PendingSend(name, session, message));
      if Valid(s) {
        StepPreservesValid(s, MessageSent(text, now));
      }
    }

    /** The settling half of `sendMessage`, for whatever ticket it is given. */
    method SendComplete(ticket: PendingSend, outcome: ChatOutcome)
      modifies this
      ensures State() == OnSendComplete(old(State()), ticket, outcome)
      ensures old(ValidStore()) && TicketValid(ticket) ==> ValidStore()
    {
      ghost var s := State();
      match outcome {
        case Replied(text, now) =>
          var reply := ChatMessage(SuspectRole, text, now);
          isResponding := false;
          totalConversationCount := totalConversationCount + 1;
          sessions := sessions[ticket.name := ticket.session.(
            history := ticket.session.history + [ticket.message, reply],
            conversationCount := ticket.session.conversationCount + 1)];
        case ChatFailed =>
          isResponding := false;
          error := Some(ReplyFailedError);
          sessions := sessions[ticket.name := ticket.session];
      }
      if Valid(s) && TicketValid(ticket) {
        StepPreservesValid(s, ReplyArrived(ticket, outcome));
      }
    }

    method MakeAccusation(accused: string)
      modifies this
      ensures State() == OnMakeAccusation(old(State()), accused)
      ensures old(ValidStore()) ==> ValidStore()
    {
      if backend.None? {
        return;
      }
      phase := Resolved;
      accusationResult := Some(Verdict(backend.value, accused));
    }

    method ResetGame()
      modifies this
      ensures State() == OnResetGame(old(State()))
      ensures ValidStore()
    {
      phase, seed, backend, player := Setup, Some(DefaultSeed), None, None;
      activeSuspectName, sessions, totalConversationCount := None, map[], 0;
      accusationResult, error, isResponding := None, None, false;
    }
  }
}
