/**
 * The built-in model catalog of lib/ai/models.ts: the record type
 * (lib/ai/models.ts:4-18), the model families (lib/ai/models.ts:86-97), the
 * four DeepSeek base records (lib/ai/models.ts:99-149), the default model
 * name (lib/ai/models.ts:75) and `DEFAULT_MODELS` (lib/ai/models.ts:151-167),
 * which keeps the base records the running WebLLM build supports and fills
 * in each one's size and quantization from its name.
 *
 * The ids of the supported models (`prebuiltAppConfig.model_list`, mapped to
 * `model_id`) come from the WebLLM library and are a parameter here.
 */
module Models {
  import opened Wrappers
  import opened Sequences
  import opened ModelIds

  datatype ModelFamily =
    | Llama | Phi | Mistral | Gemma | Qwen | SmolLm | WizardMath | StableLm | RedPajama | DeepSeek

  /** The optional sampling settings of a model; an absent field is `None`. */
  datatype RecommendedConfig = RecommendedConfig(
    temperature: Option<real>,
    contextWindowSize: Option<int>,
    topP: Option<real>,
    presencePenalty: Option<real>,
    frequencyPenalty: Option<real>)

  datatype ModelRecord = ModelRecord(
    name: string,
    displayName: string,
    provider: Option<string>,
    size: Option<string>,
    quantization: Option<string>,
    family: ModelFamily,
    recommendedConfig: Option<RecommendedConfig>)

  const DefaultModelName: string := "DeepSeek-R1-Distill-Qwen-7B-q4f16_1-MLC"

  /** The settings every DeepSeek base record recommends. */
  const DeepSeekConfig: RecommendedConfig :=
    RecommendedConfig(Some(1.0), None, Some(1.0), Some(0.0), Some(0.0))

  /** A DeepSeek base record: no size or quantization yet. */
  function DeepSeekBase(name: string): ModelRecord
  {
    ModelRecord(name, "DeepSeek", Some("DeepSeek"), None, None, DeepSeek, Some(DeepSeekConfig))
  }

  const DefaultModelBases: seq<ModelRecord> := [
    DeepSeekBase("DeepSeek-R1-Distill-Qwen-7B-q4f16_1-MLC"),
    DeepSeekBase("DeepSeek-R1-Distill-Qwen-7B-q4f32_1-MLC"),
    DeepSeekBase("DeepSeek-R1-Distill-Llama-8B-q4f32_1-MLC"),
    DeepSeekBase("DeepSeek-R1-Distill-Llama-8B-q4f16_1-MLC")
  ]

  /** The base records whose name is among the supported model ids, in catalog order. */
  function SupportedBases(supported: seq<string>): seq<ModelRecord>
  {
    Filter(DefaultModelBases, (m: ModelRecord) => m.name in supported)
  }

  /** `{ ...model, size: getSize(model.name), quantization: getQuantization(model.name) }`. */
  function Enrich(m: ModelRecord): ModelRecord
  {
    m.(size := GetSize(m.name), quantization := GetQuantization(m.name))
  }

  /** `DEFAULT_MODELS`, for the given list of supported model ids. */
  function DefaultModels(supported: seq<string>): seq<ModelRecord>
  {
    var kept := SupportedBases(supported);
    seq(|kept|, i requires 0 <= i < |kept| => Enrich(kept[i]))
  }

  /**
   * `DEFAULT_MODELS` keeps exactly the supported base records, in catalog
   * order, and each entry is its base record with size and quantization
   * parsed from its name.
   */
  lemma DefaultModelsSpec(supported: seq<string>)
    ensures var r := DefaultModels(supported);
      && |r| == |SupportedBases(supported)| <= |DefaultModelBases|
      && IsSubsequence(SupportedBases(supported), DefaultModelBases)
      && (forall m :: m in SupportedBases(supported) <==> m in DefaultModelBases && m.name in supported)
      && forall i :: 0 <= i < |r| ==>
           var b := SupportedBases(supported)[i];
           r[i] == b.(size := GetSize(b.name), quantization := GetQuantization(b.name))
  {
    var keep := (m: ModelRecord) => m.name in supported;
    FilterIsSubsequence(DefaultModelBases, keep);
    forall m ensures m in SupportedBases(supported) <==> m in DefaultModelBases && m.name in supported {
      FilterMembership(DefaultModelBases, keep, m);
    }
  }

  /** When WebLLM supports every catalog name, `DEFAULT_MODELS` is the whole catalog, enriched. */
  lemma AllSupported(supported: seq<string>)
    requires forall i :: 0 <= i < |DefaultModelBases| ==> DefaultModelBases[i].name in supported
    ensures |DefaultModels(supported)| == |DefaultModelBases|
    ensures forall i :: 0 <= i < |DefaultModelBases| ==> DefaultModels(supported)[i] == Enrich(DefaultModelBases[i])
    ensures forall i :: 0 <= i < |DefaultModelBases| ==>
      DefaultModels(supported)[i].size == Some(CatalogSizes[i])
      && DefaultModels(supported)[i].quantization == Some(CatalogQuantizations[i])
  {
    FilterKeepsAll(DefaultModelBases, (m: ModelRecord) => m.name in supported);
    forall i | 0 <= i < |DefaultModelBases|
      ensures DefaultModels(supported)[i].size == Some(CatalogSizes[i])
      ensures DefaultModels(supported)[i].quantization == Some(CatalogQuantizations[i])
    {
      CatalogParses(i);
    }
  }

  /** The default model is the first catalog entry, and the catalog names are distinct. */
  lemma CatalogFacts()
    ensures DefaultModelBases[0].name == DefaultModelName
    ensures forall i, j :: 0 <= i < j < |DefaultModelBases| ==> DefaultModelBases[i].name != DefaultModelBases[j].name
    ensures forall i :: 0 <= i < |DefaultModelBases| ==>
      DefaultModelBases[i].displayName == "DeepSeek" && DefaultModelBases[i].provider == Some("DeepSeek")
  {
  }

  /** The size and quantization the parsers find in each catalog name, in catalog order. */
  const CatalogSizes: seq<string> := ["7B", "7B", "8B", "8B"]
  const CatalogQuantizations: seq<string> := ["q4f16_1", "q4f32_1", "q4f32_1", "q4f16_1"]

  /** `getSize` and `getQuantization` on the four catalog names. */
  lemma CatalogParses(i: nat)
    requires i < |DefaultModelBases|
    ensures GetSize(DefaultModelBases[i].name) == Some(CatalogSizes[i])
    ensures GetQuantization(DefaultModelBases[i].name) == Some(CatalogQuantizations[i])
  {
    var s := DefaultModelBases[i].name;
    if i == 0 {
      ParseQwenHalf(s);
    } else if i == 1 {
      ParseQwenFull(s);
    } else if i == 2 {
      ParseLlamaFull(s);
    } else {
      ParseLlamaHalf(s);
    }
  }

  /**
   * Each catalog name parses at the dash before its parameter count: no
   * earlier position starts either pattern there, and from that dash on the
   * name has the layout `ParseAt` needs.
   */
  lemma ParseQwenHalf(s: string)
    requires s == "DeepSeek-R1-Distill-Qwen-7B-q4f16_1-MLC"
    ensures GetSize(s) == Some("7B") && GetQuantization(s) == Some("q4f16_1")
  {
    NoEarlierStartQwenHalf(s);
    ParseAt(s, 24);
    assert s[25..27] == "7B" && s[28..35] == "q4f16_1";
  }

  lemma NoEarlierStartQwenHalf(s: string)
    requires s == "DeepSeek-R1-Distill-Qwen-7B-q4f16_1-MLC"
    ensures forall k :: 0 <= k < 24 ==> SizeCapture(s, k).None?
    ensures forall k :: 0 <= k < 27 ==> QuantCapture(s, k).None?
  {
    forall k | 0 <= k < 24 ensures SizeCapture(s, k).None? {
      NoSizeStart(s, k);
    }
    forall k | 0 <= k < 27 ensures QuantCapture(s, k).None? {
      NoQuantStart(s, k);
    }
  }

  lemma ParseQwenFull(s: string)
    requires s == "DeepSeek-R1-Distill-Qwen-7B-q4f32_1-MLC"
    ensures GetSize(s) == Some("7B") && GetQuantization(s) == Some("q4f32_1")
  {
    NoEarlierStartQwenFull(s);
    ParseAt(s, 24);
    assert s[25..27] == "7B" && s[28..35] == "q4f32_1";
  }

  lemma NoEarlierStartQwenFull(s: string)
    requires s == "DeepSeek-R1-Distill-Qwen-7B-q4f32_1-MLC"
    ensures forall k :: 0 <= k < 24 ==> SizeCapture(s, k).None?
    ensures forall k :: 0 <= k < 27 ==> QuantCapture(s, k).None?
  {
    forall k | 0 <= k < 24 ensures SizeCapture(s, k).None? {
      NoSizeStart(s, k);
    }
    forall k | 0 <= k < 27 ensures QuantCapture(s, k).None? {
      NoQuantStart(s, k);
    }
  }

  lemma ParseLlamaFull(s: string)
    requires s == "DeepSeek-R1-Distill-Llama-8B-q4f32_1-MLC"
    ensures GetSize(s) == Some("8B") && GetQuantization(s) == Some("q4f32_1")
  {
    NoEarlierStartLlamaFull(s);
    ParseAt(s, 25);
    assert s[26..28] == "8B" && s[29..36] == "q4f32_1";
  }

  lemma NoEarlierStartLlamaFull(s: string)
    requires s == "DeepSeek-R1-Distill-Llama-8B-q4f32_1-MLC"
    ensures forall k :: 0 <= k < 25 ==> SizeCapture(s, k).None?
    ensures forall k :: 0 <= k < 28 ==> QuantCapture(s, k).None?
  {
    forall k | 0 <= k < 25 ensures SizeCapture(s, k).None? {
      NoSizeStart(s, k);
    }
    forall k | 0 <= k < 28 ensures QuantCapture(s, k).None? {
      NoQuantStart(s, k);
    }
  }

  lemma ParseLlamaHalf(s: string)
    requires s == "DeepSeek-R1-Distill-Llama-8B-q4f16_1-MLC"
    ensures GetSize(s) == Some("8B") && GetQuantization(s) == Some("q4f16_1")
  {
    NoEarlierStartLlamaHalf(s);
    ParseAt(s, 25);
    assert s[26..28] == "8B" && s[29..36] == "q4f16_1";
  }

  lemma NoEarlierStartLlamaHalf(s: string)
    requires s == "DeepSeek-R1-Distill-Llama-8B-q4f16_1-MLC"
    ensures forall k :: 0 <= k < 25 ==> SizeCapture(s, k).None?
    ensures forall k :: 0 <= k < 28 ==> QuantCapture(s, k).None?
  {
    forall k | 0 <= k < 25 ensures SizeCapture(s, k).None? {
      NoSizeStart(s, k);
    }
    forall k | 0 <= k < 28 ensures QuantCapture(s, k).None? {
      NoQuantStart(s, k);
    }
  }

  /** The size pattern cannot start at `k` unless `s[k]` is a dash followed by a digit. */
  lemma NoSizeStart(s: string, k: nat)
    requires k + 1 < |s| && (s[k] != '-' || !IsDigit(s[k + 1]))
    ensures SizeCapture(s, k).None?
  {
  }

  /** The quantization pattern cannot start at `k` unless `s[k]` is a dash followed by `q`. */
  lemma NoQuantStart(s: string, k: nat)
    requires k + 1 < |s| && (s[k] != '-' || s[k + 1] != 'q')
    ensures QuantCapture(s, k).None?
  {
  }

  /**
   * A name laid out as `-<digit>B-q<digit>f<digit><digit>_<digit>-` from
   * `dash` on, with no earlier start of either pattern, parses to that size
   * and that quantization.
   */
  lemma ParseAt(s: string, dash: nat)
    requires dash + 12 <= |s|
    requires s[dash] == '-' && IsDigit(s[dash + 1]) && s[dash + 2] == 'B' && s[dash + 3] == '-'
    requires s[dash + 4] == 'q' && IsDigit(s[dash + 5]) && s[dash + 6] == 'f' && IsDigit(s[dash + 7])
    requires IsDigit(s[dash + 8]) && s[dash + 9] == '_' && IsDigit(s[dash + 10]) && s[dash + 11] == '-'
    requires forall k :: 0 <= k < dash ==> SizeCapture(s, k).None?
    requires forall k :: 0 <= k < dash + 3 ==> QuantCapture(s, k).None?
    ensures GetSize(s) == Some(s[dash + 1..dash + 3])
    ensures GetQuantization(s) == Some(s[dash + 4..dash + 11])
  {
    LeftmostSkip(s, 0, dash, SizeCapture);
    DigitRunExact(s, dash + 1, 1);
    assert SizeEnd(s, dash) == Some(dash + 3);
    LeftmostSkip(s, 0, dash + 3, QuantCapture);
    DigitRunExact(s, dash + 7, 2);
    assert QuantEnd(s, dash + 3) == Some(dash + 11);
  }
}
