/**
 * The shape checks `lds_init` applies to its config table before it calls the
 * engine: `model` and `alphabet` paths, and an optional `grammar`/`trie` pair
 * for the language model.
 */
module Config {
  import opened Wrappers

  /** The Lua type of a config field, with the text of a string. */
  datatype Value = Nil | Boolean | Number | Str(text: string) | Table | Function | Userdata | LightUserdata | Thread

  /** The first argument of `init`. */
  datatype Argument = ConfigTable(model: Value, alphabet: Value, grammar: Value, trie: Value) | NotATable

  datatype LanguageModel = LanguageModel(grammar: string, trie: string)

  /** The paths `lds_init` hands to the engine once the checks pass. */
  datatype Settings = Settings(model: string, alphabet: string, languageModel: Option<LanguageModel>)

  datatype ConfigError = ModelNotString | AlphabetNotString | GrammarNotNilOrString | TrieRequired | TrieNotString

  /** The message `luaL_error` raises for each check. */
  function Message(e: ConfigError): string
  {
    match e
    case ModelNotString => "config.model should be a string"
    case AlphabetNotString => "config.alphabet should be a string"
    case GrammarNotNilOrString => "config.grammar should be nil or a string"
    case TrieRequired => "config.trie is required when config.grammar is set"
    case TrieNotString => "config.trie should be a string"
  }

  /** Each check has a message of its own. */
  lemma MessagesIdentifyErrors(a: ConfigError, b: ConfigError)
    ensures Message(a) == Message(b) ==> a == b
  {
  }

  /** The accepted configs, stated field by field. */
  predicate Accepted(c: Argument)
    requires c.ConfigTable?
  {
    && c.model.Str? && c.alphabet.Str?
    && (c.grammar.Nil? || c.grammar.Str?)
    && (c.trie.Nil? <==> c.grammar.Nil?)
    && (c.grammar.Str? ==> c.trie.Str?)
  }

  /** Lines 71-92 of `lds_init`: the checks in source order, the first failing one raising its error. */
  function Validate(c: Argument): (r: Result<Settings, ConfigError>)
    requires c.ConfigTable?
    ensures r.Ok? <==> Accepted(c)
    ensures r.Ok? ==> r.value.model == c.model.text && r.value.alphabet == c.alphabet.text
    ensures r.Ok? ==> (r.value.languageModel.Some? <==> c.grammar.Str?)
    ensures r.Ok? && c.grammar.Str? ==> r.value.languageModel == Some(LanguageModel(c.grammar.text, c.trie.text))
    ensures r == Err(ModelNotString) <==> !c.model.Str?
    ensures r == Err(AlphabetNotString) <==> c.model.Str? && !c.alphabet.Str?
    ensures r == Err(GrammarNotNilOrString) <==>
              c.model.Str? && c.alphabet.Str? && !c.grammar.Nil? && !c.grammar.Str?
    ensures r == Err(TrieRequired) <==>
              c.model.Str? && c.alphabet.Str? && (c.grammar.Nil? || c.grammar.Str?) && c.grammar.Nil? != c.trie.Nil?
    ensures r == Err(TrieNotString) <==>
              c.model.Str? && c.alphabet.Str? && c.grammar.Str? && !c.trie.Nil? && !c.trie.Str?
  {
    if !c.model.Str? then Err(ModelNotString)
    else if !c.alphabet.Str? then Err(AlphabetNotString)
    else if !(c.grammar.Nil? || c.grammar.Str?) then Err(GrammarNotNilOrString)
    // `lua_tostring` gives NULL for nil: `grammar == NULL` exactly when the field is nil
    else if c.grammar.Nil? != c.trie.Nil? then Err(TrieRequired)
    else if !c.grammar.Nil? && !c.trie.Str? then Err(TrieNotString)
    else Ok(Settings(c.model.text, c.alphabet.text,
                     if c.grammar.Str? then Some(LanguageModel(c.grammar.text, c.trie.text)) else None))
  }

  /** A nil `grammar` with a `trie` set is refused with the "required" message, although nothing is missing. */
  lemma TrieWithoutGrammar(model: string, alphabet: string, trie: string)
    ensures Validate(ConfigTable(Str(model), Str(alphabet), Nil, Str(trie))) == Err(TrieRequired)
  {
  }
}
