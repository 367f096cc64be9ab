/** The case file: the player's seed, the generated document and its two
    slices, the case-generation prompt and each suspect's system prompt.
    Prompt prose is not modelled: a prompt is a sequence of blocks, each
    standing for one fixed passage or one interpolated value. */
module CaseFile {
  import opened Js
  import ResponseCleanup

  // ---------------------------------------------------------------------
  // Data model
  // ---------------------------------------------------------------------

  datatype PlayerSeed = PlayerSeed(
    theme: string,
    freeText: string,
    difficulty: int,
    duration: int,
    intensity: int)

  datatype Avatar = Avatar(id: string, description: string)

  /** The fixed catalog of character art the model chooses from. */
  const AvatarPool: seq<Avatar> := [
    Avatar("avatar_01", "Elderly man, white hair, sharp formal suit, stern expression"),
    Avatar("avatar_02", "Young woman, casual clothes, bright eyes, approachable look"),
    Avatar("avatar_03", "Middle-aged woman, professional blazer, composed and polished"),
    Avatar("avatar_04", "Young man, disheveled hair, nervous energy, informal clothing"),
    Avatar("avatar_05", "Older woman, elegant dress, silver jewelry, refined and cold"),
    Avatar("avatar_06", "Middle-aged man, rugged build, worn jacket, weathered face"),
    Avatar("avatar_07", "Young woman, dark clothing, guarded expression, artistic look"),
    Avatar("avatar_08", "Middle-aged man, glasses, academic appearance, quietly intense")
  ]

  datatype Contradiction = Contradiction(
    suspectName: string,
    theirClaim: string,
    actualTruth: string,
    exposedByClueId: string,
    exposedByDialogue: Option<string>)

  /** Ground truth; backend only. */
  datatype Storyline = Storyline(
    trueSequenceOfEvents: string,
    murdererName: string,
    murderWeapon: string,
    murderLocation: string,
    murderTime: string,
    hiddenBackstory: string,
    contradictions: seq<Contradiction>,
    difficultyNotes: string)

  datatype HonestyLevel = Honest | PartiallyHonest | Deceptive

  /** A suspect with its secrets; backend and chat sessions only. */
  datatype Suspect = Suspect(
    name: string,
    age: int,
    occupation: string,
    relationshipToVictim: string,
    personality: string,
    physicalDescription: string,
    avatarId: string,
    trueAlibi: string,
    claimedAlibi: string,
    trueMotive: Option<string>,
    isGuilty: bool,
    honestyLevel: HonestyLevel,
    secretTheyreHiding: Option<string>,
    lyingTells: Option<string>,
    knowledgeOfOtherSuspects: string,
    conversationsNeededToBreak: int)

  datatype SuspicionLevel = Low | Medium | High

  /** The redacted, player-visible view of a suspect. The type has no field
      for any secret a Suspect carries. */
  datatype CharacterProfile = CharacterProfile(
    name: string,
    age: int,
    occupation: string,
    relationshipToVictim: string,
    personalityBlurb: string,
    claimedAlibi: string,
    physicalDescription: string,
    avatarId: string,
    suspicionLevel: SuspicionLevel)

  datatype Victim = Victim(
    name: string,
    age: int,
    occupation: string,
    background: string,
    causeOfDeath: string,
    bodyFoundAt: string)

  datatype CaseReport = CaseReport(
    caseTitle: string,
    caseId: string,
    setting: string,
    date: string,
    victim: Victim,
    officialBriefing: string,
    knownFacts: seq<string>,
    openQuestions: seq<string>)

  datatype Clue = Clue(
    id: string,
    name: string,
    description: string,
    location: string,
    couldImplicateSuspects: seq<string>,
    isDecisive: bool)

  /** The document the model returns, once parsed. */
  datatype CaseFileRaw = CaseFileRaw(
    storyline: Storyline,
    suspects: seq<Suspect>,
    characterProfiles: seq<CharacterProfile>,
    caseReport: CaseReport,
    clues: seq<Clue>)

  datatype CaseFileBackend = CaseFileBackend(
    storyline: Storyline,
    suspects: seq<Suspect>,
    clues: seq<Clue>)

  datatype CaseFilePlayer = CaseFilePlayer(
    characterProfiles: seq<CharacterProfile>,
    caseReport: CaseReport,
    clues: seq<Clue>)

  datatype CaseFiles = CaseFiles(backend: CaseFileBackend, player: CaseFilePlayer)

  // ---------------------------------------------------------------------
  // The case-generation prompt
  // ---------------------------------------------------------------------

  /** `Math.round(x)`: the nearest integer, halves rounded up. */
  function JsRound(x: real): int {
    (x + 0.5).Floor
  }

  /** `Math.round(seed.duration / 2)`: about two minutes per exchange. */
  function EstimatedConversations(duration: int): int {
    JsRound(duration as real / 2.0)
  }

  /** The estimate is the half of the duration rounded half up, which for an
      integer is `(d + 1) / 2` in floor division. */
  lemma EstimatedConversationsRoundsHalfUp(d: int)
    ensures EstimatedConversations(d) == (d + 1) / 2
    ensures d <= 2 * EstimatedConversations(d) <= d + 1
  {
    var q := (d + 1) / 2;
    assert 2 * q <= d + 1 < 2 * q + 2;
    assert q as real <= d as real / 2.0 + 0.5 < q as real + 1.0;
  }

  /** Over the slider's range (5 to 60 minutes, in steps of 5) the estimate
      runs from 3 to 30 and never falls as the duration grows. */
  lemma EstimatedConversationsOverSliderRange(d: int, d': int)
    requires 5 <= d <= d' <= 60
    ensures 3 <= EstimatedConversations(d) <= EstimatedConversations(d') <= 30
  {
    EstimatedConversationsRoundsHalfUp(d);
    EstimatedConversationsRoundsHalfUp(d');
  }

  /** The three intensity (and difficulty) guides, by tier. */
  datatype Tier = Mild | Moderate | Severe

  /** A value selects its guide by the thresholds 3 and 6. */
  function TierOf(v: int): Tier {
    if v <= 3 then Mild else if v <= 6 then Moderate else Severe
  }

  function TierRank(t: Tier): nat {
    match t
    case Mild => 0
    case Moderate => 1
    case Severe => 2
  }

  /** Each value selects exactly one tier, by its range, and a higher value
      never selects a lower tier. */
  lemma TierOfRanges(v: int, w: int)
    ensures TierOf(v) == Mild <==> v <= 3
    ensures TierOf(v) == Moderate <==> 4 <= v <= 6
    ensures TierOf(v) == Severe <==> 7 <= v
    ensures v <= w ==> TierRank(TierOf(v)) <= TierRank(TierOf(w))
  {
  }

  /** One passage or interpolated value of the case-generation prompt. */
  datatype CaseBlock =
    | GameMasterIntro
    | ThemeLine(theme: string)
    | DetailsLine(details: string)
    | DifficultyLine(difficulty: int, difficultyGuide: Tier)
    | SessionLengthLine(duration: int, targetExchanges: int)
    | IntensityLine(intensity: int, intensityGuide: Tier)
    | AvatarInstructions
    | AvatarLine(avatarId: string, avatarDescription: string)
    | HonestyRules
    | GenerationRules(breakTarget: int)
    | ResponseSchema

  /** `AVATAR_POOL.map(a => ...).join("\n")` */
  function AvatarLines(pool: seq<Avatar>): (lines: seq<CaseBlock>)
    ensures |lines| == |pool|
    ensures forall i :: 0 <= i < |pool| ==> lines[i] == AvatarLine(pool[i].id, pool[i].description)
  {
    if pool == [] then [] else [AvatarLine(pool[0].id, pool[0].description)] + AvatarLines(pool[1..])
  }

  /** `buildPrompt(seed)`, listing the avatar catalog `pool`. */
  function PromptFor(seed: PlayerSeed, pool: seq<Avatar>): seq<CaseBlock> {
    var estimated := EstimatedConversations(seed.duration);
    [ GameMasterIntro,
      ThemeLine(seed.theme),
      DetailsLine(if Truthy(seed.freeText) then seed.freeText else "none"),
      DifficultyLine(seed.difficulty, TierOf(seed.difficulty)),
      SessionLengthLine(seed.duration, estimated),
      IntensityLine(seed.intensity, TierOf(seed.intensity)),
      AvatarInstructions ]
    + AvatarLines(pool)
    + [HonestyRules, GenerationRules(estimated), ResponseSchema]
  }

  /** `buildPrompt(seed)` */
  function BuildPrompt(seed: PlayerSeed): seq<CaseBlock> {
    PromptFor(seed, AvatarPool)
  }

  /** The prompt carries the seed's theme and numbers with the guides their
      values select, "none" for empty extra details, the avatar catalog in
      order, and the same exchange estimate in the session-length line and
      as the guilty suspect's break target. */
  lemma PromptForContents(seed: PlayerSeed, pool: seq<Avatar>)
    ensures var p := PromptFor(seed, pool);
      && |p| == 10 + |pool|
      && p[1] == ThemeLine(seed.theme)
      && p[2] == DetailsLine(if seed.freeText == "" then "none" else seed.freeText)
      && p[3] == DifficultyLine(seed.difficulty, TierOf(seed.difficulty))
      && p[4] == SessionLengthLine(seed.duration, (seed.duration + 1) / 2)
      && p[5] == IntensityLine(seed.intensity, TierOf(seed.intensity))
      && (forall i :: 0 <= i < |pool| ==> p[7 + i] == AvatarLine(pool[i].id, pool[i].description))
      && p[|p| - 2] == GenerationRules((seed.duration + 1) / 2)
  {
    EstimatedConversationsRoundsHalfUp(seed.duration);
  }

  /** The same, for the fixed catalog the game ships: all eight avatars
      are listed, so the prompt has eighteen blocks. */
  lemma BuildPromptContents(seed: PlayerSeed)
    ensures var p := BuildPrompt(seed);
      && |p| == 18
      && p[1] == ThemeLine(seed.theme)
      && p[2] == DetailsLine(if seed.freeText == "" then "none" else seed.freeText)
      && p[3] == DifficultyLine(seed.difficulty, TierOf(seed.difficulty))
      && p[4] == SessionLengthLine(seed.duration, (seed.duration + 1) / 2)
      && p[5] == IntensityLine(seed.intensity, TierOf(seed.intensity))
      && (forall i :: 0 <= i < 8 ==> p[7 + i] == AvatarLine(AvatarPool[i].id, AvatarPool[i].description))
      && p[16] == GenerationRules((seed.duration + 1) / 2)
  {
    PromptForContents(seed, AvatarPool);
  }

  /** The avatar catalog offers eight distinct ids. */
  lemma AvatarIdsDistinct()
    ensures |AvatarPool| == 8
    ensures forall i, j :: 0 <= i < j < |AvatarPool| ==> AvatarPool[i].id != AvatarPool[j].id
  {
  }

  // ---------------------------------------------------------------------
  // Generation pipeline and the confidentiality split
  // ---------------------------------------------------------------------

  /** The backend/player split of a parsed document. */
  function Split(raw: CaseFileRaw): CaseFiles {
    CaseFiles(
      CaseFileBackend(raw.storyline, raw.suspects, raw.clues),
      CaseFilePlayer(raw.characterProfiles, raw.caseReport, raw.clues))
  }

  /** Both slices are taken verbatim, and both hold the one clue list. */
  lemma SplitTakesPartsVerbatim(raw: CaseFileRaw)
    ensures var f := Split(raw);
      && f.backend.storyline == raw.storyline && f.backend.suspects == raw.suspects
      && f.player.characterProfiles == raw.characterProfiles
      && f.player.caseReport == raw.caseReport
      && f.backend.clues == raw.clues == f.player.clues
  {
  }

  /** Confidentiality: the player slice is a function of the profiles, the
      report and the clues alone. Two documents that differ in anything
      else (the storyline, any field of any suspect) give the same player
      slice. */
  lemma PlayerSliceIgnoresSecrets(raw: CaseFileRaw, raw': CaseFileRaw)
    requires raw.characterProfiles == raw'.characterProfiles
    requires raw.caseReport == raw'.caseReport
    requires raw.clues == raw'.clues
    ensures Split(raw).player == Split(raw').player
  {
  }

  /** The text the JSON parser receives from one model response. */
  function CleanResponse(text: string): string {
    ResponseCleanup.Sanitize(ResponseCleanup.StripFences(text))
  }

  /** `generateCaseFile(seed)` after the model call. `response` is the
      model's text, or `None` when the call failed; `parse` stands for
      `JSON.parse` together with the shape the code assumes of its result
      (`None` when it throws). */
  function GenerateCaseFile(response: Option<string>, parse: string -> Option<CaseFileRaw>): (r: Option<CaseFiles>)
    ensures r.Some? <==> response.Some? && parse(CleanResponse(response.value)).Some?
    ensures r.Some? ==> r.value.backend.clues == r.value.player.clues
    ensures r.Some? ==> Split(parse(CleanResponse(response.value)).value) == r.value
  {
    match response
    case None => None
    case Some(text) =>
      match parse(CleanResponse(text))
      case None => None
      case Some(raw) => Some(Split(raw))
  }

  // ---------------------------------------------------------------------
  // What the prompt requests of the document (never checked by the code)
  // ---------------------------------------------------------------------

  function GuiltyCount(suspects: seq<Suspect>): nat {
    if suspects == [] then 0
    else (if suspects[0].isGuilty then 1 else 0) + GuiltyCount(suspects[1..])
  }

  predicate StartsWithCluePrefix(id: string) {
    |id| >= 5 && id[..5] == "clue_"
  }

  predicate IsClueId(clues: seq<Clue>, id: string) {
    exists k :: 0 <= k < |clues| && clues[k].id == id
  }

  /** The rules the prompt asks the model to follow: exactly four suspects,
      exactly one of them guilty, deceptive and named as the murderer, unique
      avatars from the pool, four to seven clues with `clue_` ids, and every
      contradiction exposed by a real clue. The code never checks them. */
  ghost predicate WellFormedBackend(b: CaseFileBackend) {
    && |b.suspects| == 4
    && GuiltyCount(b.suspects) == 1
    && (forall i :: 0 <= i < |b.suspects| && b.suspects[i].isGuilty ==>
          b.suspects[i].honestyLevel == Deceptive && b.suspects[i].name == b.storyline.murdererName)
    && (forall i, j :: 0 <= i < j < |b.suspects| ==> b.suspects[i].avatarId != b.suspects[j].avatarId)
    && (forall i :: 0 <= i < |b.suspects| ==>
          exists a :: 0 <= a < |AvatarPool| && AvatarPool[a].id == b.suspects[i].avatarId)
    && 4 <= |b.clues| <= 7
    && (forall k :: 0 <= k < |b.clues| ==> StartsWithCluePrefix(b.clues[k].id))
    && (forall c :: 0 <= c < |b.storyline.contradictions| ==>
          IsClueId(b.clues, b.storyline.contradictions[c].exposedByClueId))
  }

  predicate HasProfile(profiles: seq<CharacterProfile>, name: string) {
    exists j :: 0 <= j < |profiles| && profiles[j].name == name
  }

  predicate HasSuspect(suspects: seq<Suspect>, name: string) {
    exists i :: 0 <= i < |suspects| && suspects[i].name == name
  }

  /** The profiles are the redacted view of the suspects: one profile for
      each suspect and one suspect for each profile, met by name. */
  ghost predicate ProfilesMatchSuspects(profiles: seq<CharacterProfile>, suspects: seq<Suspect>) {
    && (forall i :: 0 <= i < |suspects| ==> HasProfile(profiles, suspects[i].name))
    && (forall j :: 0 <= j < |profiles| ==> HasSuspect(suspects, profiles[j].name))
  }

  /** The rules of the whole document: its backend part, plus profiles that
      are the redacted versions of its suspects. */
  ghost predicate WellFormedCase(raw: CaseFileRaw) {
    && WellFormedBackend(CaseFileBackend(raw.storyline, raw.suspects, raw.clues))
    && ProfilesMatchSuspects(raw.characterProfiles, raw.suspects)
  }

  /** The split keeps what the rules constrain: a well-formed document gives
      a well-formed backend slice, the player slice sees the same `clue_`
      ids, and each suspect the backend knows has a profile the player sees,
      and no profile is of anyone else. */
  lemma SplitPreservesWellFormedness(raw: CaseFileRaw)
    requires WellFormedCase(raw)
    ensures WellFormedBackend(Split(raw).backend)
    ensures forall k :: 0 <= k < |Split(raw).player.clues| ==> StartsWithCluePrefix(Split(raw).player.clues[k].id)
    ensures ProfilesMatchSuspects(Split(raw).player.characterProfiles, Split(raw).backend.suspects)
    ensures |Split(raw).backend.suspects| == 4
  {
  }

  /** With exactly one guilty suspect, that suspect is the first guilty one
      in the list. */
  lemma {:induction false} UniqueGuiltyIsFirst(suspects: seq<Suspect>, i: nat)
    requires GuiltyCount(suspects) == 1 && i < |suspects| && suspects[i].isGuilty
    ensures forall j :: 0 <= j < |suspects| && j != i ==> !suspects[j].isGuilty
  {
    if i == 0 {
      NoneGuilty(suspects[1..]);
    } else {
      if suspects[0].isGuilty {
        CountPositive(suspects[1..], i - 1);
        assert false;
      }
      UniqueGuiltyIsFirst(suspects[1..], i - 1);
      forall j | 0 <= j < |suspects| && j != i ensures !suspects[j].isGuilty {
        if j > 0 { assert suspects[j] == suspects[1..][j - 1]; }
      }
    }
  }

  lemma {:induction false} NoneGuilty(suspects: seq<Suspect>)
    requires GuiltyCount(suspects) == 0
    ensures forall j :: 0 <= j < |suspects| ==> !suspects[j].isGuilty
  {
    if suspects != [] {
      NoneGuilty(suspects[1..]);
      forall j | 0 < j < |suspects| ensures !suspects[j].isGuilty {
        assert suspects[j] == suspects[1..][j - 1];
      }
    }
  }

  lemma {:induction false} CountPositive(suspects: seq<Suspect>, i: nat)
    requires i < |suspects| && suspects[i].isGuilty
    ensures GuiltyCount(suspects) >= 1
  {
    if i > 0 {
      CountPositive(suspects[1..], i - 1);
    }
  }

  // ---------------------------------------------------------------------
  // The suspect's interrogation system prompt
  // ---------------------------------------------------------------------

  /** `${x}` for a nullable string: `null` is written out as "null". */
  function Interpolate(o: Option<string>): string {
    if o.Some? then o.value else "null"
  }

  /** The behaviour passage, with the value interpolated into it. */
  datatype Behaviour =
    | FullyTruthful
    | OmitsOneDetail(detail: string)
    | EvasiveMurderer
    | InnocentButHiding(secret: string)

  /** The `honestyInstruction` lookup, keyed by honesty level. */
  function BehaviourFor(s: Suspect): Behaviour {
    match s.honestyLevel
    case Honest => FullyTruthful
    case PartiallyHonest => OmitsOneDetail(Interpolate(s.secretTheyreHiding))
    case Deceptive =>
      if s.isGuilty then EvasiveMurderer else InnocentButHiding(Interpolate(s.secretTheyreHiding))
  }

  datatype SuspectBlock =
    | IdentityLine(suspectName: string, victimName: string)
    | IdentityDetails(age: int, occupation: string, relationshipToVictim: string, personality: string)
    | AlibiLine(claimedAlibi: string)
    | KnowledgeOfOthers(knowledge: string)
    | BehaviourBlock(behaviour: Behaviour)
    | TellsLine(tell: string)
    | ResponseRules

  /** `tellsLine`: present only for a truthy `lyingTells`. */
  function TellsBlocks(s: Suspect): seq<SuspectBlock> {
    if TruthyOpt(s.lyingTells) then [TellsLine(s.lyingTells.value)] else []
  }

  /** `buildSuspectSystemPrompt(suspect, caseReport)` */
  function BuildSuspectSystemPrompt(s: Suspect, report: CaseReport): seq<SuspectBlock> {
    [ IdentityLine(s.name, report.victim.name),
      IdentityDetails(s.age, s.occupation, s.relationshipToVictim, s.personality),
      AlibiLine(s.claimedAlibi),
      KnowledgeOfOthers(s.knowledgeOfOtherSuspects),
      BehaviourBlock(BehaviourFor(s)) ]
    + TellsBlocks(s)
    + [ResponseRules]
  }

  /** The prompt names the suspect and the victim, gives the suspect's
      details, claimed alibi and knowledge of the others; its behaviour block
      is the one the honesty level selects, and the two that mention the
      secret carry it as interpolated ("null" when there is none). */
  lemma SuspectPromptContents(s: Suspect, report: CaseReport)
    ensures var p := BuildSuspectSystemPrompt(s, report);
      var secret := Interpolate(s.secretTheyreHiding);
      && p[0] == IdentityLine(s.name, report.victim.name)
      && p[1] == IdentityDetails(s.age, s.occupation, s.relationshipToVictim, s.personality)
      && p[2] == AlibiLine(s.claimedAlibi)
      && p[3] == KnowledgeOfOthers(s.knowledgeOfOtherSuspects)
      && (s.honestyLevel == Honest <==> p[4] == BehaviourBlock(FullyTruthful))
      && (s.honestyLevel == PartiallyHonest <==> p[4] == BehaviourBlock(OmitsOneDetail(secret)))
      && (s.honestyLevel == Deceptive && s.isGuilty <==> p[4] == BehaviourBlock(EvasiveMurderer))
      && (s.honestyLevel == Deceptive && !s.isGuilty <==> p[4] == BehaviourBlock(InnocentButHiding(secret)))
      && (s.secretTheyreHiding.None? ==> secret == "null")
      && p[|p| - 1] == ResponseRules
  {
  }

  /** Guilt changes the prompt if and only if the suspect is deceptive. */
  lemma GuiltMattersOnlyWhenDeceptive(s: Suspect, report: CaseReport)
    ensures BuildSuspectSystemPrompt(s.(isGuilty := !s.isGuilty), report) == BuildSuspectSystemPrompt(s, report)
            <==> s.honestyLevel != Deceptive
  {
    if s.honestyLevel == Deceptive {
      assert BuildSuspectSystemPrompt(s.(isGuilty := !s.isGuilty), report)[4]
          != BuildSuspectSystemPrompt(s, report)[4];
    }
  }

  /** The tells line appears exactly when `lyingTells` is a non-empty string,
      and then it carries that string. */
  lemma TellsLineIffLyingTells(s: Suspect, report: CaseReport)
    ensures var p := BuildSuspectSystemPrompt(s, report);
      && (|p| == 7 <==> s.lyingTells.Some? && s.lyingTells.value != "")
      && (|p| == 7 ==> p[5] == TellsLine(s.lyingTells.value))
      && (s.lyingTells.None? ==> forall k :: 0 <= k < |p| ==> !p[k].TellsLine?)
  {
  }

  /** The prompt never depends on the suspect's true alibi or true motive,
      nor on the avatar, physical description or break count. */
  lemma SuspectPromptIgnoresHiddenFields(s: Suspect, report: CaseReport,
                                         trueAlibi: string, trueMotive: Option<string>,
                                         avatarId: string, physicalDescription: string,
                                         conversationsNeededToBreak: int)
    ensures BuildSuspectSystemPrompt(
              s.(trueAlibi := trueAlibi, trueMotive := trueMotive, avatarId := avatarId,
                 physicalDescription := physicalDescription,
                 conversationsNeededToBreak := conversationsNeededToBreak), report)
            == BuildSuspectSystemPrompt(s, report)
  {
  }

  /** Of the victim only the name reaches the prompt. */
  lemma SuspectPromptUsesOnlyVictimName(s: Suspect, report: CaseReport, report': CaseReport)
    requires report.victim.name == report'.victim.name
    ensures BuildSuspectSystemPrompt(s, report) == BuildSuspectSystemPrompt(s, report')
  {
  }

  /** An honest suspect, and the guilty deceptive one, are never told the
      secret they hide: it does not reach their prompt. */
  lemma SecretReachesOnlyHidingSuspects(s: Suspect, report: CaseReport, secret: Option<string>)
    requires s.honestyLevel == Honest || (s.honestyLevel == Deceptive && s.isGuilty)
    ensures BuildSuspectSystemPrompt(s.(secretTheyreHiding := secret), report)
            == BuildSuspectSystemPrompt(s, report)
  {
  }
}
