/** The records the parser produces (entities, dependency rows, the parsed
    command and its grammatical components) and the projection of a parsed
    command into the fixed "contract" shape consumed downstream. */
module Command {
  import opened Wrappers

  // Part-of-speech tags and dependency labels the extraction rules test for.
  const NSUBJ := "nsubj"
  const DOBJ := "dobj"
  const POBJ := "pobj"
  const ADVMOD := "advmod"
  const VERB := "VERB"
  const ADP := "ADP"
  const ADV := "ADV"
  const NOUN := "NOUN"

  /** A named-entity span (`entityLabel` is the source's `label`); `confidence` is a real standing for the source's float. */
  datatype Entity = Entity(text: string, entityLabel: string, confidence: real, start: int, end: int)

  /** One row of the dependency listing: token text, tag, label and head index (-1 for the root). */
  datatype Dependency = Dependency(token: string, pos: string, dependency: string, head: int)

  /** The five grammatical fields both extractors return. */
  datatype Components = Components(
    subject: Option<string>,
    verbs: seq<string>,
    directObject: Option<string>,
    indirectObject: Option<string>,
    prepositions: seq<string>)

  datatype ParsedCommand = ParsedCommand(
    subject: Option<string>,
    verbs: seq<string>,
    directObject: Option<string>,
    indirectObject: Option<string>,
    prepositions: seq<string>,
    entities: seq<Entity>,
    dependencies: seq<Dependency>,
    originalText: string)

  /** The command `parse` returns for blank input. */
  function EmptyCommand(text: string): ParsedCommand {
    ParsedCommand(None, [], None, None, [], [], [], text)
  }

  /** A parsed command built from extracted components and the backend's entities and dependencies. */
  function Assemble(c: Components, entities: seq<Entity>, dependencies: seq<Dependency>, text: string): ParsedCommand {
    ParsedCommand(c.subject, c.verbs, c.directObject, c.indirectObject, c.prepositions, entities, dependencies, text)
  }

  /** Python truthiness of an optional string: neither None nor "". */
  predicate Truthy(o: Option<string>) {
    o.Some? && o.value != ""
  }

  /** An entity as it appears in the contract shape; `entityType` is the key "type". */
  datatype ContractEntity = ContractEntity(text: string, entityType: string)

  datatype ContractContext = ContractContext(
    prepositions: seq<string>,
    entities: seq<ContractEntity>,
    confidence: real)

  /** The keys action, subject, target, modifier and context of the contract shape. */
  datatype ContractFormat = ContractFormat(
    action: string,
    subject: string,
    target: Option<string>,
    modifier: Option<string>,
    context: ContractContext)

  /** The smallest confidence among a non-empty list of entities. */
  function MinConfidence(es: seq<Entity>): (m: real)
    requires |es| > 0
    ensures forall i :: 0 <= i < |es| ==> m <= es[i].confidence
    ensures exists i :: 0 <= i < |es| && m == es[i].confidence
  {
    if |es| == 1 then es[0].confidence
    else
      var rest := MinConfidence(es[1..]);
      assert forall i :: 1 <= i < |es| ==> es[1..][i - 1] == es[i];
      if es[0].confidence <= rest then es[0].confidence else rest
  }

  function ToContractEntities(es: seq<Entity>): seq<ContractEntity> {
    seq(|es|, i requires 0 <= i < |es| => ContractEntity(es[i].text, es[i].entityLabel))
  }

  /** The projection into the contract shape. It is total: every parsed command has one. */
  function ToContractFormat(c: ParsedCommand): (r: ContractFormat)
    ensures c.verbs != [] ==> r.action == c.verbs[0]
    ensures c.verbs == [] ==> r.action == "unknown"
    ensures Truthy(c.subject) ==> r.subject == c.subject.value
    ensures !Truthy(c.subject) ==> r.subject == "player"
    ensures r.target == c.directObject && r.modifier == c.indirectObject
    ensures r.context.prepositions == c.prepositions
    ensures |r.context.entities| == |c.entities|
    ensures forall i :: 0 <= i < |c.entities| ==>
              r.context.entities[i].text == c.entities[i].text &&
              r.context.entities[i].entityType == c.entities[i].entityLabel
    ensures c.entities == [] ==> r.context.confidence == 1.0
    ensures c.entities != [] ==>
              (forall i :: 0 <= i < |c.entities| ==> r.context.confidence <= c.entities[i].confidence) &&
              (exists i :: 0 <= i < |c.entities| && r.context.confidence == c.entities[i].confidence)
  {
    ContractFormat(
      if |c.verbs| > 0 then c.verbs[0] else "unknown",
      if Truthy(c.subject) then c.subject.value else "player",
      c.directObject,
      c.indirectObject,
      ContractContext(
        c.prepositions,
        ToContractEntities(c.entities),
        if |c.entities| > 0 then MinConfidence(c.entities) else 1.0))
  }

  /** Blank input projects to the default action, the default subject and full confidence. */
  lemma EmptyCommandContract(text: string)
    ensures ToContractFormat(EmptyCommand(text)) ==
            ContractFormat("unknown", "player", None, None, ContractContext([], [], 1.0))
  {
  }
}
