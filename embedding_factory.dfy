/** Choosing and configuring the embedding model
    (chatdoc/embed/embedding_factory.py): which embedding class a vendor name
    selects, which API key it needs from the environment, and the keyword
    arguments the class is built with.

    The environment is a map from variable name to value; a missing variable
    reads as `None`. Building the embedding object itself is a foreign call
    and is not modelled: `Create` returns the class and its arguments. */
module EmbeddingFactory {

  import opened Results

  type Env = map<string, string>

  /** The embedding classes of `embedding_map`. */
  datatype EmbeddingClass = OpenAIEmbeddings | HuggingFaceInferenceAPIEmbeddings | HuggingFaceEmbeddings

  const EmbeddingMap: map<string, EmbeddingClass> :=
    map["openai" := OpenAIEmbeddings,
        "huggingface" := HuggingFaceInferenceAPIEmbeddings,
        "huggingface_local" := HuggingFaceEmbeddings]

  /** `api_key_map`: the environment variable holding each vendor's key. */
  const ApiKeyMap: map<string, string> :=
    map["openai" := "OPENAI_API_KEY", "huggingface" := "HUGGINGFACE_API_KEY"]

  const VendorVariable := "EMBEDDING_MODEL_VENDOR_NAME"
  const ModelVariable := "EMBEDDING_MODEL_NAME"

  datatype ConfigError =
    | NoVendorName                      // `"local" in None` raises TypeError
    | NoApiKeyVariable(vendor: string)  // vendor missing from api_key_map
    | NoApiKey(variable: string)        // key variable missing from the environment
    | EmptyOverwrite                    // defaults off without settings to use
    | NoEmbedding(vendor: string)       // vendor missing from embedding_map

  /** The values the settings dict holds. */
  datatype Setting = EmptyTuple | Flag(b: bool) | Text(s: string) | Number(n: int)

  /** A constructed factory: its fields after `__init__`. */
  datatype Factory = Factory(vendorName: string, embeddingModelName: Option<string>, apiKey: string)

  /** What `create` would pass to the embedding class. */
  datatype EmbeddingArgs = EmbeddingArgs(
    embeddingClass: EmbeddingClass,
    modelName: map<string, Option<string>>,
    settings: map<string, Setting>,
    apiKey: string)

  /** `Utils.get_env_variable` */
  function GetEnv(env: Env, name: string): (v: Option<string>)
    ensures v.Some? <==> name in env
    ensures v.Some? ==> v.value == env[name]
  {
    if name in env then Some(env[name]) else None
  }

  predicate OccursAt(s: string, pattern: string, i: nat) {
    i + |pattern| <= |s| && s[i..i + |pattern|] == pattern
  }

  /** Python's `pattern in s` for strings. */
  predicate Contains(s: string, pattern: string)
    ensures Contains(s, pattern) ==> |pattern| <= |s|
    decreases |s|
  {
    if |s| < |pattern| then false
    else s[..|pattern|] == pattern || Contains(s[1..], pattern)
  }

  /** An occurrence at any index is found by `Contains`. */
  lemma {:induction false} OccursImpliesContains(s: string, pattern: string, i: nat)
    requires OccursAt(s, pattern, i)
    ensures Contains(s, pattern)
    decreases i
  {
    if i > 0 && s[..|pattern|] != pattern {
      assert s[1..][i - 1..i - 1 + |pattern|] == s[i..i + |pattern|];
      OccursImpliesContains(s[1..], pattern, i - 1);
    }
  }

  /** Conversely, `Contains` only holds where the pattern occurs. */
  lemma {:induction false} ContainsWitness(s: string, pattern: string) returns (i: nat)
    requires Contains(s, pattern)
    ensures OccursAt(s, pattern, i)
    decreases |s|
  {
    if s[..|pattern|] == pattern {
      i := 0;
    } else {
      var j := ContainsWitness(s[1..], pattern);
      i := j + 1;
      assert s[1..][j..j + |pattern|] == s[i..i + |pattern|];
    }
  }

  /** A string containing a non-empty pattern contains its first character. */
  lemma {:induction false} ContainsFirstChar(s: string, pattern: string)
    requires |pattern| > 0 && Contains(s, pattern)
    ensures pattern[0] in s
    decreases |s|
  {
    if s[..|pattern|] == pattern {
      assert s[0] == pattern[0];
    } else {
      ContainsFirstChar(s[1..], pattern);
      assert forall c :: c in s[1..] ==> c in s;
    }
  }

  /** A name without the letter 'l' cannot contain "local". */
  lemma NoLocalWithoutL(s: string)
    requires 'l' !in s
    ensures !Contains(s, "local")
  {
    if Contains(s, "local") {
      ContainsFirstChar(s, "local");
    }
  }

  /** The vendors that need no API key. */
  predicate IsLocal(vendorName: string)
    ensures IsLocal(vendorName) <==> exists i: nat :: OccursAt(vendorName, "local", i)
  {
    ContainsIffOccurs(vendorName, "local");
    Contains(vendorName, "local")
  }

  /** `Contains` is the substring test: it holds iff the pattern occurs. */
  lemma ContainsIffOccurs(s: string, pattern: string)
    ensures Contains(s, pattern) <==> exists i: nat :: OccursAt(s, pattern, i)
  {
    if Contains(s, pattern) {
      var i := ContainsWitness(s, pattern);
    }
    if exists i: nat :: OccursAt(s, pattern, i) {
      var i: nat :| OccursAt(s, pattern, i);
      OccursImpliesContains(s, pattern, i);
    }
  }

  /** `_get_api_key`: no key for a local vendor; otherwise the explicit key,
      else the one in the vendor's environment variable. */
  function GetApiKey(vendorName: string, apiKey: Option<string>, env: Env): (r: Result<string, ConfigError>)
    ensures IsLocal(vendorName) ==> r == Ok("")
    ensures !IsLocal(vendorName) && apiKey.Some? ==> r == Ok(apiKey.value)
    ensures !IsLocal(vendorName) && apiKey.None? ==>
              (r.Ok? <==> vendorName in ApiKeyMap && ApiKeyMap[vendorName] in env)
              && (r.Ok? ==> r.value == env[ApiKeyMap[vendorName]])
              && (r.Err? && vendorName !in ApiKeyMap ==> r.error == NoApiKeyVariable(vendorName))
              && (r.Err? && vendorName in ApiKeyMap ==> r.error == NoApiKey(ApiKeyMap[vendorName]))
  {
    if IsLocal(vendorName) then Ok("")
    else if apiKey.Some? then Ok(apiKey.value)
    else if vendorName !in ApiKeyMap then Err(NoApiKeyVariable(vendorName))
    else match GetEnv(env, ApiKeyMap[vendorName])
      case None => Err(NoApiKey(ApiKeyMap[vendorName]))
      case Some(key) => Ok(key)
  }

  /** `__init__`: the vendor and model names from the arguments, else from the
      environment; then the API key, which fails the construction when it
      cannot be found. */
  function NewFactory(vendorName: Option<string>, embeddingModelName: Option<string>, env: Env)
    : (r: Result<Factory, ConfigError>)
    ensures var vendor := if vendorName.Some? then vendorName else GetEnv(env, VendorVariable);
            && (vendor.None? ==> r == Err(NoVendorName))
            && (vendor.Some? ==> match GetApiKey(vendor.value, None, env)
                                 case Err(e) => r == Err(e)
                                 case Ok(key) => r.Ok? && r.value.vendorName == vendor.value
                                                 && r.value.apiKey == key)
    ensures r.Ok? ==> r.value.embeddingModelName
                      == if embeddingModelName.Some? then embeddingModelName else GetEnv(env, ModelVariable)
  {
    var vendor := if vendorName.Some? then vendorName else GetEnv(env, VendorVariable);
    var model := if embeddingModelName.Some? then embeddingModelName else GetEnv(env, ModelVariable);
    if vendor.None? then Err(NoVendorName)
    else match GetApiKey(vendor.value, None, env)
      case Err(e) => Err(e)
      case Ok(key) => Ok(Factory(vendor.value, model, key))
  }

  /** The default settings of the OpenAI embeddings. */
  const OpenAISettings: map<string, Setting> :=
    map["disallowed_special" := EmptyTuple, "show_progress_bar" := Flag(true)]

  /** `_create_settings_dict`: with defaults, the OpenAI settings for "openai"
      and none for any other vendor; without, the overwrite, which must be a
      non-empty dict. */
  function CreateSettingsDict(vendorName: string, defaults: bool, overwrite: Option<map<string, Setting>>)
    : (r: Result<map<string, Setting>, ConfigError>)
    ensures !defaults ==> (r.Err? <==> overwrite.None? || overwrite.value == map[])
    ensures !defaults && r.Ok? ==> r.value == overwrite.value
    ensures r.Err? ==> r.error == EmptyOverwrite
    ensures defaults ==> r.Ok?
    ensures defaults && vendorName != "openai" ==> r.value == map[]
    ensures defaults && vendorName == "openai" ==>
              && r.value.Keys == {"disallowed_special", "show_progress_bar"}
              && r.value["disallowed_special"] == EmptyTuple
              && r.value["show_progress_bar"] == Flag(true)
  {
    if !defaults then
      if overwrite.None? || |overwrite.value| == 0 then Err(EmptyOverwrite) else Ok(overwrite.value)
    else if vendorName == "openai" then
      Ok(OpenAISettings)
    else
      Ok(map[])
  }

  /** `_create_model_name_dict`: the model name under "model" for OpenAI and
      under "model_name" for every other vendor. */
  function CreateModelNameDict(vendorName: string, embeddingModelName: Option<string>)
    : (d: map<string, Option<string>>)
    ensures |d| == 1
    ensures vendorName == "openai" ==> d.Keys == {"model"} && d["model"] == embeddingModelName
    ensures vendorName != "openai" ==> d.Keys == {"model_name"} && d["model_name"] == embeddingModelName
  {
    var key := if vendorName == "openai" then "model" else "model_name";
    map[key := embeddingModelName]
  }

  /** `create`: reject a vendor without an embedding class, then gather the
      class's arguments; the API key is looked up again. */
  function Create(f: Factory, env: Env): (r: Result<EmbeddingArgs, ConfigError>)
    ensures f.vendorName !in EmbeddingMap ==> r == Err(NoEmbedding(f.vendorName))
    ensures f.vendorName in EmbeddingMap ==> (r.Ok? <==> GetApiKey(f.vendorName, None, env).Ok?)
    ensures f.vendorName in EmbeddingMap && GetApiKey(f.vendorName, None, env).Err? ==>
              r == Err(GetApiKey(f.vendorName, None, env).error)
    ensures r.Ok? ==> && r.value.embeddingClass == EmbeddingMap[f.vendorName]
                      && r.value.apiKey == GetApiKey(f.vendorName, None, env).value
                      && r.value.modelName == CreateModelNameDict(f.vendorName, f.embeddingModelName)
                      && r.value.settings == CreateSettingsDict(f.vendorName, true, None).value
  {
    if f.vendorName !in EmbeddingMap then Err(NoEmbedding(f.vendorName))
    else
      var settings := CreateSettingsDict(f.vendorName, true, None);
      var modelName := CreateModelNameDict(f.vendorName, f.embeddingModelName);
      match GetApiKey(f.vendorName, None, env)
      case Err(e) => Err(e)
      case Ok(key) => Ok(EmbeddingArgs(EmbeddingMap[f.vendorName], modelName, settings.value, key))
  }

  /** The vendors with an API key variable are not local ones. */
  lemma KeyedVendorsAreRemote()
    ensures !IsLocal("openai") && !IsLocal("huggingface") && IsLocal("huggingface_local")
  {
    NoLocalWithoutL("openai");
    NoLocalWithoutL("huggingface");
    assert OccursAt("huggingface_local", "local", 12);
    OccursImpliesContains("huggingface_local", "local", 12);
  }

  /** A factory that was built can create its embedding iff its vendor is
      one of the three known ones, as long as the environment is the one it
      was built with. */
  lemma CreateFailsExactlyForUnknownVendors(vendorName: Option<string>, modelName: Option<string>, env: Env)
    requires NewFactory(vendorName, modelName, env).Ok?
    ensures var f := NewFactory(vendorName, modelName, env).value;
            Create(f, env).Ok? <==> f.vendorName in {"openai", "huggingface", "huggingface_local"}
  {
  }

  /** The local Hugging Face vendor never reads an API key: it is created with
      the empty key whatever the environment holds. */
  lemma LocalVendorNeedsNoKey(modelName: Option<string>, env: Env)
    ensures NewFactory(Some("huggingface_local"), modelName, env).Ok?
    ensures var f := NewFactory(Some("huggingface_local"), modelName, env).value;
            && f.apiKey == ""
            && Create(f, env) == Ok(EmbeddingArgs(HuggingFaceEmbeddings, map["model_name" := f.embeddingModelName], map[], ""))
  {
    KeyedVendorsAreRemote();
  }

  /** OpenAI needs its key: without `OPENAI_API_KEY` the factory cannot be built. */
  lemma OpenAIWithoutKeyFails(modelName: Option<string>, env: Env)
    requires "OPENAI_API_KEY" !in env
    ensures NewFactory(Some("openai"), modelName, env) == Err(NoApiKey("OPENAI_API_KEY"))
  {
    KeyedVendorsAreRemote();
  }
}
