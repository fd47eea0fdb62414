/** The parser object. It records whether its models have been loaded, refuses
    to parse before that, answers blank input at once, and otherwise sends the
    text either through the spaCy pipeline and the rule-based extractor or,
    without a spaCy model, through the NER pipeline and the fallback extractor. */
module Parser {
  import opened Wrappers
  import opened Text
  import opened Command
  import opened SpacyExtraction
  import opened Fallback

  /** What running the spaCy pipeline on a text yields: its tokens, entity spans and dependency rows. */
  datatype SpacyDoc = SpacyDoc(tokens: seq<Token>, entities: seq<Entity>, dependencies: seq<Dependency>)

  /** A loaded spaCy pipeline, as a deterministic function of the text. */
  type SpacyModel = string -> SpacyDoc

  /** A loaded transformers NER pipeline; a failure while running it shows up as an empty list. */
  type NerModel = string -> seq<Entity>

  /** The error raised when `parse` is called on non-blank text before `load_models`. */
  datatype ParseError = ModelsNotLoaded

  class LightweightNLPParser {
    const useSpacy: bool
    const modelSize: string
    var nlp: Option<SpacyModel>
    var nerPipeline: Option<NerModel>
    var modelsLoaded: bool

    /** The source's defaults are spaCy wanted and the "small" model. */
    constructor (useSpacy: bool := true, modelSize: string := "small")
      ensures this.useSpacy == useSpacy && this.modelSize == modelSize
      ensures nlp == None && nerPipeline == None && !modelsLoaded
    {
      this.useSpacy := useSpacy;
      this.modelSize := modelSize;
      nlp := None;
      nerPipeline := None;
      modelsLoaded := false;
    }

    /** Loads the models and marks them loaded. `spacyLoad` is the outcome of loading the spaCy
        model (None when it is not installed); `transformersLoad` the outcome of building the
        NER pipeline (None when that raised). Loading spaCy falls back to the NER pipeline. */
    method LoadModels(spacyLoad: Option<SpacyModel>, transformersLoad: Option<NerModel>)
      modifies this
      ensures modelsLoaded
      ensures nlp == if useSpacy && spacyLoad.Some? then spacyLoad else old(nlp)
      ensures nerPipeline ==
                if (!useSpacy || spacyLoad.None?) && transformersLoad.Some? then transformersLoad
                else old(nerPipeline)
    {
      if useSpacy {
        LoadSpacyModels(spacyLoad, transformersLoad);
      } else {
        LoadTransformersModels(transformersLoad);
      }
      modelsLoaded := true;
    }

    method LoadSpacyModels(spacyLoad: Option<SpacyModel>, transformersLoad: Option<NerModel>)
      modifies this`nlp, this`nerPipeline
      ensures spacyLoad.Some? ==> nlp == spacyLoad && nerPipeline == old(nerPipeline)
      ensures spacyLoad.None? ==>
                nlp == old(nlp) &&
                nerPipeline == if transformersLoad.Some? then transformersLoad else old(nerPipeline)
    {
      if spacyLoad.Some? {
        nlp := spacyLoad;
      } else {
        LoadTransformersModels(transformersLoad);
      }
    }

    /** A failed build leaves the previous pipeline (if any) in place. */
    method LoadTransformersModels(transformersLoad: Option<NerModel>)
      modifies this`nerPipeline
      ensures nerPipeline == if transformersLoad.Some? then transformersLoad else old(nerPipeline)
    {
      if transformersLoad.Some? {
        nerPipeline := transformersLoad;
      }
    }

    /** Parses one command. Blank text gives the empty command whether or not the models are
        loaded; other text fails until they are; then the spaCy path is taken when spaCy is
        wanted and loaded, and the fallback otherwise, whose grammatical fields are all empty
        because it is given no dependency rows. */
    method Parse(text: string) returns (r: Result<ParsedCommand, ParseError>)
      ensures IsBlank(text) ==> r == Success(EmptyCommand(text))
      ensures !IsBlank(text) && !modelsLoaded ==> r == Failure(ModelsNotLoaded)
      ensures !IsBlank(text) && modelsLoaded && useSpacy && nlp.Some? ==>
                var doc := nlp.value(text);
                r == Success(Assemble(SpacyComponents(doc.tokens), doc.entities, doc.dependencies, text))
      ensures !IsBlank(text) && modelsLoaded && !(useSpacy && nlp.Some?) ==>
                var entities := if nerPipeline.Some? then nerPipeline.value(text) else [];
                r == Success(ParsedCommand(None, [], None, None, [], entities, [], text))
    {
      StripEmptyIffBlank(text);
      if Strip(text) == [] {
        return Success(EmptyCommand(text));
      }
      if !modelsLoaded {
        return Failure(ModelsNotLoaded);
      }
      var entities: seq<Entity>;
      var dependencies: seq<Dependency>;
      var components: Components;
      if useSpacy && nlp.Some? {
        var doc := nlp.value(text);
        entities := doc.entities;
        dependencies := doc.dependencies;
        components := ExtractGrammaticalComponentsSpacy(doc.tokens);
      } else {
        entities := if nerPipeline.Some? then nerPipeline.value(text) else [];
        dependencies := [];
        components := FallbackComponents(dependencies);
        FallbackOnEmpty();
      }
      r := Success(Assemble(components, entities, dependencies, text));
    }
  }
}
