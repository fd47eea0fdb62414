# A verified model of the text-adventure command parser

The parser turns a short command such as "talk to John about the quest" into a command
record: subject, verbs, direct object, indirect object, prepositions, named entities and
the dependency rows. The tagging itself (tokenising, part-of-speech tags, dependency labels,
entity spans) comes from spaCy or a transformers NER pipeline. This model treats that
output as an abstract input. What it models is the rule-based post-processing:

- **SpacyExtraction**: `_extract_grammatical_components_spacy`. One pass over the tokens
  sends each token down the first matching branch of the chain: nsubj, VERB, dobj, pobj,
  ADP, ADV+advmod, NOUN. The pass resolves pronoun objects against the nouns seen so far.
  A second step picks the primary direct object. A third step demotes the conversational
  verbs (want, need, would, like, try, going, gonna). When that leaves no direct object,
  the prepositional object is promoted to direct object. The method is imperative, as in
  the source. It is proved equal to `SpacyComponents`, which is built from one
  specification function per accumulated field. Lemmas state each field against plain
  conditions on the tokens.
- **Fallback**: `_extract_grammatical_components_fallback`. It takes the first
  subject, direct object and prepositional object, and every VERB and ADP, from a list of
  dependency rows.
- **Command**: the records and `ParsedCommand.to_contract_format`. This is a total
  projection. The action defaults to "unknown" and the subject to "player", following
  Python truthiness. The confidence is the least entity confidence, or 1.0 without entities.
- **Parser**: the class `LightweightNLPParser`. `LoadModels` sets `modelsLoaded`.
  `Parse` answers blank input at once and fails with `ModelsNotLoaded` before loading.
  Otherwise it dispatches to the spaCy path, or to the fallback, which is always given no
  dependency rows.
- **Text** and **Wrappers**: Python's whitespace set and `str.strip`, ASCII lower-casing,
  the subsequence relation, and Option/Result.

Behaviour worth knowing, all proved for every input:

- Because of the `elif` chain, a noun that is itself a subject, direct object or
  prepositional object never enters the noun list (`NounsExcludeArguments`). A pronoun
  object can therefore only stand for a noun that was not an object itself
  (`DirectObjectAt`).
- The subject is the LAST nsubj token, but the indirect object is the FIRST pobj token
  (`SubjectIsLastNsubj`, `IndirectIsFirstPobj`). The fallback takes the first of each.
- A pobj or dobj token tagged VERB goes to the verb list, not to the object slots.
- Promotion moves the prepositional object only when it is truthy. An empty-string
  prepositional object stays where it is.

An illustration, not stated as a lemma of its own: take "take the ball and kick it at the
window", tagged so that "ball" and "it" are both dobj and neither is tagged VERB, and with
no free NOUN (one that is not nsubj, dobj or pobj) before "it". "ball" is a direct object,
so it is not in the noun list, and by `DirectObjectAt` "it" stays the literal "it". The
primary object is "ball" only because it is the first candidate. It is not the result of
pronoun resolution.

## Model

| member | source | states |
|---|---|---|
| `Text.StripEmptyIffBlank` | parser.py:275 | `text.strip()` is empty exactly when every character is Python whitespace |
| `Command.MinConfidence` | parser.py:60-61 | the confidence of a non-empty entity list is at most every entity's confidence and equals one of them |
| `Command.ToContractFormat` | parser.py:49-63 | action is the first verb, or "unknown" with no verbs; subject is the subject when truthy, else "player"; target and modifier are the objects unchanged; prepositions are kept; one (text, type) entry per entity in order; confidence is 1.0 without entities, else their minimum; no precondition, so it never fails |
| `Command.EmptyCommandContract` | parser.py:49-63 | the blank-input command projects to action "unknown", subject "player", no target or modifier, empty context and confidence 1.0 |
| `SpacyExtraction.LastRouted` | parser.py:195-196 | the value is absent exactly when no token takes the branch; otherwise it is the text of a token taking the branch with no later token taking it (last write wins) |
| `SpacyExtraction.FirstRouted` | parser.py:208-212 | the value is absent exactly when no token takes the branch; otherwise it is the text of a token taking the branch with no earlier token taking it (first write wins) |
| `SpacyExtraction.FirstMember` | parser.py:225-228 | the search finds nothing exactly when no candidate is in the noun list; otherwise it finds the earliest candidate that is |
| `SpacyExtraction.FirstMemberAt` | parser.py:225-228 | a search that stops at the first candidate in the noun list returns that candidate |
| `SpacyExtraction.PrimaryObject` | parser.py:222-228 | no object exactly when there are no candidates; the only candidate when there is one; with several, the first candidate that is a collected noun, or the first candidate when none is |
| `SpacyExtraction.ActionVerbs` | parser.py:231-234 | the kept verbs are a subsequence of the verbs (order kept) and contain no conversational verb (compared lower-cased) |
| `SpacyExtraction.ActionVerbsCounts` | parser.py:231-234 | every non-conversational verb is kept exactly as often as it occurs, and every conversational verb is dropped entirely |
| `SpacyExtraction.Scan` | parser.py:194-219 | the token loop with its if/elif chain leaves subject, verbs, candidates, first prepositional object, prepositions and nouns equal to the per-branch specifications of the whole token sequence |
| `SpacyExtraction.ExtractGrammaticalComponentsSpacy` | parser.py:183-250 | the loop and the search computation return exactly `SpacyComponents` of the tokens |
| `SpacyExtraction.VerbsAreNonSubjectVerbs` | parser.py:194-198 | before demotion, the verbs are exactly the texts of the VERB tokens that are not nsubj, in order |
| `SpacyExtraction.NounsExcludeArguments` | parser.py:194-219 | the noun list is exactly the NOUN tokens whose label is none of nsubj, dobj and pobj, in order |
| `SpacyExtraction.PrepositionsAreParticles` | parser.py:194-217 | the prepositions are exactly the ADP tokens and the ADV+advmod tokens that are none of nsubj, dobj and pobj, in order |
| `SpacyExtraction.ScanStep` | parser.py:194-219 | one token changes only the accumulator its branch names: it overwrites the subject, sets the indirect object only while none is set, or appends its text (for a direct object, its resolved candidate) to one list; every other accumulator is unchanged |
| `SpacyExtraction.RoutedIsSubsequence` | parser.py:194-219 | the verbs, prepositions and nouns (every list built by routing alone) are subsequences of the token texts; the direct-object candidates are not, since a resolved pronoun repeats an earlier noun |
| `SpacyExtraction.FinalVerbsAreSubsequence` | parser.py:194-238 | the verbs returned, after demotion or not, are a subsequence of the token texts |
| `SpacyExtraction.SubjectIsLastNsubj` | parser.py:195-196 | the subject is absent exactly when there is no nsubj token; otherwise it is the text of the last nsubj token |
| `SpacyExtraction.IndirectIsFirstPobj` | parser.py:208-212 | before promotion, the indirect object is absent exactly when no pobj token is untagged VERB; otherwise it is the text of the first such token |
| `SpacyExtraction.DirectObjectsCount` | parser.py:199-207 | there is exactly one candidate per token reaching the dobj branch |
| `SpacyExtraction.DirectObjectsPrefix` | parser.py:199-207 | the candidates from a prefix of the tokens are a prefix of the final candidates, so later tokens never rewrite earlier ones |
| `SpacyExtraction.DirectObjectAt` | parser.py:199-207 | the k-th dobj token gives the k-th candidate. If it is it/this/that/them (case-insensitive), the candidate is the most recent free noun before it, or its own text when there is none. Otherwise it is its own text |
| `SpacyExtraction.NoCandidatesIff` | parser.py:222 | there are no candidates exactly when no token is a dobj untagged VERB |
| `SpacyExtraction.DemotesIff` | parser.py:233-236 | the source's test (a non-empty filtered list and more than one verb) holds exactly when there are several verbs and at least one is not conversational |
| `SpacyExtraction.ConversationalDemotion` | parser.py:230-238 | with several verbs and an action verb among them, the verbs become exactly the action verbs; otherwise they are unchanged; either way they stay in order and are empty only when there were no verbs |
| `SpacyExtraction.ObjectPromotion` | parser.py:239-242 | the first prepositional object becomes the direct object, and the indirect object becomes absent, exactly when demotion applied, no token is a direct object and that prepositional object is truthy; otherwise the chosen primary object and the first prepositional object are returned; subject and prepositions are never touched |
| `Fallback.FirstWithDependency` | parser.py:256-262 | absent exactly when no row carries the label; otherwise the token of the first row that does |
| `Fallback.TokensWithPos` | parser.py:258 | every row with the tag contributes its token, and the result is no longer than the listing |
| `Fallback.TokensWithPosAppend` | parser.py:258-263 | the selection distributes over concatenation, and a single row contributes its token exactly when it has the tag; this fixes the result as all tagged tokens in order |
| `Fallback.TokensWithPosKeepsOrder` | parser.py:258-263 | the verbs and adpositions of the fallback are subsequences of the listing's tokens |
| `Fallback.FallbackOnEmpty` | parser.py:295-297 | on the empty listing that `parse` passes, every field is absent or empty |
| `Parser.LightweightNLPParser.constructor` | parser.py:67-72 | a new parser keeps its options (by default spaCy wanted and the "small" model) and has no model and `models_loaded` false |
| `Parser.LightweightNLPParser.LoadModels` | parser.py:77-87 | afterwards `models_loaded` is true. The spaCy model is stored when spaCy is wanted and it loaded. The NER pipeline is stored when it was built, spaCy being unwanted or missing. A failed load leaves the field as it was |
| `Parser.LightweightNLPParser.LoadSpacyModels` | parser.py:89-105 | a found spaCy model is stored; a missing one falls back to building the NER pipeline |
| `Parser.LightweightNLPParser.LoadTransformersModels` | parser.py:107-122 | a built pipeline is stored; a failed build leaves the previous value |
| `Parser.LightweightNLPParser.Parse` | parser.py:273-308 | Blank text gives the all-empty command with the text kept, even before loading; other text fails with `ModelsNotLoaded` before loading. With spaCy wanted and loaded, the fields are `SpacyComponents` of the tokens plus the pipeline's entities and rows. Otherwise the NER entities come with empty grammatical fields and no rows |

## Left out

- Loading and running spaCy and transformers (`spacy.load`, `pipeline(...)`, `extract_entities_transformers`, spaCy's `head.i`): these call into foreign libraries. Their outcomes are parameters of `LoadModels`, and their output is the abstract `SpacyDoc` / `NerModel`.
- `SpacyDoc` leaves the repository's own spaCy extractors unconstrained: `extract_entities_spacy` (parser.py:124-139) gives every entity confidence 1.0, and `extract_dependencies_spacy` (parser.py:141-155) gives one row per token copying its text, pos and dep. The model allows any entities and rows, so on the spaCy path it permits a contract confidence below 1.0, which the source never produces.
- `Parser.LightweightNLPParser.LoadModels`: only an `OSError` from `spacy.load` is caught (parser.py:101) and is the `spacyLoad == None` case. Any other load error propagates out of `load_models` and leaves `models_loaded` false; that outcome is not modelled.
- `parse` runs the spaCy pipeline three times on the same text. The model runs it once, which assumes the pipeline is deterministic.
- Exceptions raised inside the NER pipeline are caught by the source and turned into an empty list. The model folds that into the `NerModel` function. Exceptions raised by spaCy itself are not modelled.
- `model_size` is stored but changes nothing: both branches name the same spaCy model. The console messages printed by the constructor and the loaders are not modelled.
- `get_model_info`, `main`, the argument parser, the interactive loop, `print` and `json.dumps` are command-line plumbing.
- `profile_parser.py` (timing, memory sampling, profiling, file output) and `tests/test_parser_steps.py` are not part of this model. The scenarios in the tests depend on what the external tagger outputs.
- Confidences are floats in the source and `real` here. The minimum of floats is exact, so only the non-finite values (NaN and ±infinity) and the sign of zero, which have no `real` counterpart, behave differently: Python's `min([-0.0, 0.0])` is `-0.0`.
- `IsPronoun`, `IsConversational`: `str.lower()` is modelled for ASCII letters only. Non-ASCII characters whose Python lower-case form is ASCII (such as the Kelvin sign) are not folded.
- `Fallback.TokensWithPos`: its own contract states completeness and length only. The exact contents and order are stated by `TokensWithPosAppend` and `TokensWithPosKeepsOrder`.
- Running an extractor twice on the same tokens gives the same result because every extractor is a function. This is not stated as a separate lemma.
- The contract shape's key "type" is the field `entityType`, and an entity's `label` is `entityLabel`, because `type` and `label` are Dafny keywords. The source's dictionaries are datatypes.
