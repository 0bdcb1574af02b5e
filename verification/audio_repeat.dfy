/** The pure helpers of `audio_repeat.py`: numeric normalisation of typed or
    spoken answers (`clean_float`), the voice configuration read from the
    environment, tone normalisation, and the profile built from the answers. */
module AudioRepeat {
  import opened Wrappers
  import opened Seqs
  import opened Text
  import opened Numerals
  import AffordabilityModel

  /** The text `clean_float` parses: lower-cased, stripped, then every `$`
      and `,` deleted (in that order: whitespace next to a `$` survives). */
  function Normalize(val: string): (r: string)
    ensures '$' !in r && ',' !in r
  {
    var noDollar := Remove(Strip(Lower(val)), '$');
    RemoveKeepsOthers(noDollar, ',');
    assert multiset(noDollar)['$'] == 0;
    Remove(noDollar, ',')
  }

  /** Neither of the two symbols `clean_float` deletes. */
  predicate NotMoneySymbol(c: char) { c != '$' && c != ',' }

  /** The normalised answer is the lower-cased, stripped answer with every
      `$` and `,` deleted: the deletion comes after the strip. */
  lemma NormalizeStripsFirst(val: string)
    ensures Normalize(val) == Filter(Strip(Lower(val)), NotMoneySymbol)
  {
    RemoveMoneySymbols(Strip(Lower(val)));
  }

  lemma {:induction false} RemoveMoneySymbols(s: string)
    ensures Remove(Remove(s, '$'), ',') == Filter(s, NotMoneySymbol)
  {
    if s != [] {
      RemoveMoneySymbols(s[1..]);
      assert s == [s[0]] + s[1..];
      RemoveCons(s[0], s[1..], '$');
      if s[0] != '$' {
        RemoveCons(s[0], Remove(s[1..], '$'), ',');
      }
    }
  }

  /** Whitespace after a `$` survives: "$ nil" normalises to " nil", which
      is not none-like. */
  lemma SpaceAfterDollarSurvives()
    ensures Normalize("$ nil") == " nil" && !NoneLike(Normalize("$ nil"))
  {
    LowerUnchanged("$ nil");
    StripStripped("$ nil");
    RemoveCons('$', " nil", '$');
    RemoveAbsent(" nil", '$');
    RemoveAbsent(" nil", ',');
  }

  /** The normalised answer holds no upper-case letter. */
  lemma NormalizeLowerCase(val: string)
    ensures forall i :: 0 <= i < |Normalize(val)| ==> !('A' <= Normalize(val)[i] <= 'Z')
  {
    var lower := Lower(val);
    var stripped := Strip(lower);
    var noDollar := Remove(stripped, '$');
    var r := Normalize(val);
    RemoveKeepsOthers(stripped, '$');
    RemoveKeepsOthers(noDollar, ',');
    forall i | 0 <= i < |r| ensures !('A' <= r[i] <= 'Z') {
      var c := r[i];
      assert multiset(r)[c] > 0;
      assert c in noDollar && c in stripped by {
        assert multiset(noDollar)[c] > 0;
        assert multiset(stripped)[c] > 0;
      }
      var k := StripIsSlice(lower);
      var j :| 0 <= j < |stripped| && stripped[j] == c;
      assert lower[k + j] == c;
    }
  }

  /** The answers meaning "nothing". */
  predicate NoneLike(s: string) { s == "" || s == "none" || s == "nothing" || s == "nil" }

  /** `clean_float`: 0 for a none-like answer; otherwise the first layer that
      succeeds of a direct decimal parse, the word-to-number parser and the
      remote parser; 0 when all three fail. Never raises. */
  function CleanFloat(val: string, wordToNum: string -> Option<real>,
                      remote: string -> Option<real>): (r: real)
    ensures NoneLike(Normalize(val)) ==> r == 0.0
    ensures !NoneLike(Normalize(val)) && PyFloat(Normalize(val)).Some? ==>
              r == PyFloat(Normalize(val)).value
    ensures !NoneLike(Normalize(val)) && PyFloat(Normalize(val)).None?
              && wordToNum(Normalize(val)).Some? ==>
              r == wordToNum(Normalize(val)).value
    ensures !NoneLike(Normalize(val)) && PyFloat(Normalize(val)).None?
              && wordToNum(Normalize(val)).None? && remote(Normalize(val)).Some? ==>
              r == remote(Normalize(val)).value
  {
    var v := Normalize(val);
    if NoneLike(v) then 0.0
    else match PyFloat(v)
      case Some(x) => x
      case None =>
        match wordToNum(v)
        case Some(x) => x
        case None =>
          match remote(v)
          case Some(x) => x
          case None => 0.0
  }

  /** The word-to-number parser is consulted only when the direct parse
      fails, and the remote parser only when both fail: any other oracles
      that agree on the earlier layers give the same answer. */
  lemma LayersTriedInOrder(val: string, w1: string -> Option<real>, w2: string -> Option<real>,
                           g1: string -> Option<real>, g2: string -> Option<real>)
    ensures PyFloat(Normalize(val)).Some? ==> CleanFloat(val, w1, g1) == CleanFloat(val, w2, g2)
    ensures w1(Normalize(val)).Some? && w1(Normalize(val)) == w2(Normalize(val)) ==>
              CleanFloat(val, w1, g1) == CleanFloat(val, w2, g2)
  {
  }

  /** When every layer fails the answer is 0. */
  lemma AllLayersFailGivesZero(val: string, wordToNum: string -> Option<real>, remote: string -> Option<real>)
    requires PyFloat(Normalize(val)).None?
    requires wordToNum(Normalize(val)).None? && remote(Normalize(val)).None?
    ensures CleanFloat(val, wordToNum, remote) == 0.0
  {
  }

  /** "$1,200.50" is read by the direct parse as 1200.5, whatever the
      oracles do. */
  lemma DollarsAndCommasRemoved(wordToNum: string -> Option<real>, remote: string -> Option<real>)
    ensures CleanFloat("$1,200.50", wordToNum, remote) == 1200.5
  {
    NormalizesDollarAmount();
    TwelveHundredFifty();
  }

  lemma NormalizesDollarAmount()
    ensures Normalize("$1,200.50") == "1200.50"
  {
    DollarAmountKeepsCase();
    DollarSignRemoved();
    CommaRemovedFromDollarAmount();
  }

  lemma DollarAmountKeepsCase()
    ensures Strip(Lower("$1,200.50")) == "$1,200.50"
  {
    LowerUnchanged("$1,200.50");
    StripStripped("$1,200.50");
  }

  lemma DollarSignRemoved()
    ensures Remove("$1,200.50", '$') == "1,200.50"
  {
    RemoveCons('$', "1,200.50", '$');
    RemoveAbsent("1,200.50", '$');
  }

  lemma CommaRemovedFromDollarAmount()
    ensures Remove("1,200.50", ',') == "1200.50"
  {
    assert "1,200.50" == "1" + [','] + "200.50";
    RemoveSeparator("1", "200.50", ',');
    assert "1" + "200.50" == "1200.50";
  }

  /** " NIL " and "$" are none-like after normalisation, so they give 0. */
  lemma NoneLikeAnswers(wordToNum: string -> Option<real>, remote: string -> Option<real>)
    ensures CleanFloat(" NIL ", wordToNum, remote) == 0.0
    ensures CleanFloat("$", wordToNum, remote) == 0.0
  {
    assert Lower(" NIL ") == " nil ";
    assert Strip(" nil ") == "nil" by {
      assert TrimLeft(" nil ") == "nil ";
      assert TrimRight("nil ") == "nil";
    }
    assert Remove(Remove("nil", '$'), ',') == "nil";
    assert Lower("$") == "$";
    StripStripped("$");
    assert Remove("$", '$') == "";
    assert Remove("", ',') == "";
  }

  /** A spelled-out number is left to the word-to-number parser. */
  lemma SpelledOutUsesWordToNum(wordToNum: string -> Option<real>, remote: string -> Option<real>)
    requires wordToNum("ten") == Some(10.0)
    ensures CleanFloat("ten", wordToNum, remote) == 10.0
  {
    NormalizesSpelledOut();
    StripStripped("ten");
    ParseNeedsDigit("ten");
  }

  lemma NormalizesSpelledOut()
    ensures Normalize("ten") == "ten"
  {
    LowerUnchanged("ten");
    StripStripped("ten");
    RemoveAbsent("ten", '$');
    RemoveAbsent("ten", ',');
  }

  /** Environment variables (`os.getenv`). */
  type Env = map<string, string>

  /** The non-empty trimmed entries of a comma-separated list, in order. */
  function Entries(parts: seq<string>): (r: seq<string>)
    ensures |r| <= |parts|
    ensures forall i :: 0 <= i < |r| ==> r[i] != "" && Strip(r[i]) == r[i]
  {
    if parts == [] then []
    else
      StripIdempotent(parts[0]);
      (if Strip(parts[0]) != "" then [Strip(parts[0])] else []) + Entries(parts[1..])
  }

  /** Every non-blank piece shows up trimmed, and every entry is such a piece. */
  lemma {:induction false} EntriesComplete(parts: seq<string>)
    ensures forall i :: 0 <= i < |parts| && Strip(parts[i]) != "" ==> Strip(parts[i]) in Entries(parts)
    ensures forall e :: e in Entries(parts) ==> exists i :: 0 <= i < |parts| && e == Strip(parts[i])
  {
    if parts != [] {
      EntriesComplete(parts[1..]);
      forall e | e in Entries(parts) ensures exists i :: 0 <= i < |parts| && e == Strip(parts[i]) {
        if e !in Entries(parts[1..]) {
          assert e == Strip(parts[0]);
        } else {
          var j :| 0 <= j < |parts[1..]| && e == Strip(parts[1..][j]);
          assert e == Strip(parts[j + 1]);
        }
      }
      forall i | 0 <= i < |parts| && Strip(parts[i]) != "" ensures Strip(parts[i]) in Entries(parts) {
        if i > 0 {
          assert parts[i] == parts[1..][i - 1];
        }
      }
    }
  }

  /** A piece holding more than whitespace. */
  predicate NonBlank(s: string) { Strip(s) != "" }

  /** The entries are exactly the non-blank pieces, trimmed, in their order
      and with their multiplicity. */
  lemma {:induction false} EntriesAreTrimmedNonBlank(parts: seq<string>)
    ensures |Entries(parts)| == |Filter(parts, NonBlank)|
    ensures forall k :: 0 <= k < |Entries(parts)| ==> Entries(parts)[k] == Strip(Filter(parts, NonBlank)[k])
  {
    if parts != [] {
      EntriesAreTrimmedNonBlank(parts[1..]);
      var tail := Filter(parts[1..], NonBlank);
      assert Filter(parts, NonBlank) == (if NonBlank(parts[0]) then [parts[0]] else []) + tail;
      if NonBlank(parts[0]) {
        forall k | 0 < k < |Entries(parts)|
          ensures Entries(parts)[k] == Strip(Filter(parts, NonBlank)[k])
        {
          assert Entries(parts)[k] == Entries(parts[1..])[k - 1];
          assert Filter(parts, NonBlank)[k] == tail[k - 1];
        }
      }
    }
  }

  /** Entries that are already non-empty and trimmed come back unchanged. */
  lemma {:induction false} EntriesOfClean(ids: seq<string>)
    requires forall i :: 0 <= i < |ids| ==> ids[i] != "" && Strip(ids[i]) == ids[i]
    ensures Entries(ids) == ids
  {
    if ids != [] {
      EntriesOfClean(ids[1..]);
    }
  }

  /** `_parse_voice_list(env_key, fallback_key)`. */
  function ParseVoiceList(env: Env, key: string, fallbackKey: Option<string>): (r: seq<string>)
    ensures forall i :: 0 <= i < |r| ==> r[i] != ""
    ensures key in env && env[key] != "" ==>
              forall i :: 0 <= i < |r| ==> Strip(r[i]) == r[i] && ',' !in r[i]
  {
    var raw := if key in env then env[key] else "";
    if raw != "" then
      var parts := Split(raw, ',');
      var r := Entries(parts);
      EntriesComplete(parts);
      assert forall i :: 0 <= i < |r| ==> ',' !in r[i] by {
        forall i | 0 <= i < |r| ensures ',' !in r[i] {
          assert r[i] in r;
          var j :| 0 <= j < |parts| && r[i] == Strip(parts[j]);
          StripSubstring(parts[j], ',');
        }
      }
      r
    else if fallbackKey.Some? && fallbackKey.value != "" then
      if fallbackKey.value in env && env[fallbackKey.value] != "" then [env[fallbackKey.value]] else []
    else []
  }

  lemma StripSubstring(s: string, c: char)
    requires c !in s
    ensures c !in Strip(s)
  {
    var r := Strip(s);
    var i := StripIsSlice(s);
    forall k | 0 <= k < |r| ensures r[k] != c {
      assert r[k] == s[i + k];
    }
  }

  /** Every comma-separated entry of a set variable, trimmed, non-empty, in order. */
  lemma VoiceListEntries(env: Env, key: string, fallbackKey: Option<string>)
    requires key in env && env[key] != ""
    ensures var parts := Split(env[key], ',');
            var r := ParseVoiceList(env, key, fallbackKey);
            (forall i :: 0 <= i < |parts| && Strip(parts[i]) != "" ==> Strip(parts[i]) in r)
            && (forall e :: e in r ==> exists i :: 0 <= i < |parts| && e == Strip(parts[i]))
  {
    EntriesComplete(Split(env[key], ','));
    assert ParseVoiceList(env, key, fallbackKey) == Entries(Split(env[key], ','));
  }

  /** Writing a list of clean voice ids comma-separated into the variable and
      parsing it back gives the same list. */
  lemma VoiceListRoundTrip(env: Env, key: string, fallbackKey: Option<string>, ids: seq<string>)
    requires |ids| >= 1
    requires forall i :: 0 <= i < |ids| ==> ids[i] != "" && Strip(ids[i]) == ids[i] && ',' !in ids[i]
    ensures ParseVoiceList(env[key := Join(ids, ',')], key, fallbackKey) == ids
  {
    SplitJoin(ids, ',');
    EntriesOfClean(ids);
    assert Join(ids, ',') != "" by {
      JoinStartsWithFirst(ids, ',');
    }
  }

  lemma JoinStartsWithFirst(parts: seq<string>, sep: char)
    requires |parts| >= 1 && parts[0] != ""
    ensures Join(parts, sep) != "" && Join(parts, sep)[0] == parts[0][0]
  {
  }

  /** A set variable made only of whitespace and commas gives no voices
      and does not fall back. */
  lemma BlankListDoesNotFallBack(env: Env, key: string, fallbackKey: Option<string>)
    requires key in env && env[key] != ""
    requires forall i :: 0 <= i < |env[key]| ==> IsSpace(env[key][i]) || env[key][i] == ','
    ensures ParseVoiceList(env, key, fallbackKey) == []
  {
    var raw := env[key];
    var parts := Split(raw, ',');
    SplitPiecesFromInput(raw, ',');
    forall x | x in parts ensures !NonBlank(x) {
      forall k | 0 <= k < |x| ensures IsSpace(x[k]) {
        assert x[k] in x;
        assert x[k] in raw;
      }
      StripEmpty(x);
    }
    if Filter(parts, NonBlank) != [] {
      var x := Filter(parts, NonBlank)[0];
      FilterMembership(parts, NonBlank, x);
      assert false;
    }
    EntriesAreTrimmedNonBlank(parts);
    assert ParseVoiceList(env, key, fallbackKey) == Entries(parts);
  }

  /** With the variable unset or empty, the fallback variable's value is the
      single voice when it is set and non-empty; otherwise there is none. */
  lemma EmptyPrimaryUsesFallback(env: Env, key: string, fallbackKey: string)
    requires key !in env || env[key] == ""
    requires fallbackKey != ""
    ensures ParseVoiceList(env, key, Some(fallbackKey)) ==
              if fallbackKey in env && env[fallbackKey] != "" then [env[fallbackKey]] else []
    ensures ParseVoiceList(env, key, None) == []
  {
  }

  const TONES: seq<string> := ["friendly", "professional", "neutral"]

  /** `_VOICE_IDS`: the voice list of each tone. */
  function VoiceIds(env: Env): (ids: map<string, seq<string>>)
    ensures ids.Keys == {"friendly", "professional", "neutral"}
    ensures ids["friendly"] == ParseVoiceList(env, "VOICE_FRIENDLY_IDS", Some("VOICE_FRIENDLY"))
    ensures ids["professional"] == ParseVoiceList(env, "VOICE_PROFESSIONAL_IDS", Some("VOICE_PROFESSIONAL"))
    ensures ids["neutral"] == ParseVoiceList(env, "VOICE_NEUTRAL_IDS", None)
  {
    map["friendly" := ParseVoiceList(env, "VOICE_FRIENDLY_IDS", Some("VOICE_FRIENDLY")),
        "professional" := ParseVoiceList(env, "VOICE_PROFESSIONAL_IDS", Some("VOICE_PROFESSIONAL")),
        "neutral" := ParseVoiceList(env, "VOICE_NEUTRAL_IDS", None)]
  }

  /** The neutral tone has no fallback variable: with its list variable
      unset or empty it has no voice, whatever else is set. */
  lemma NeutralHasNoFallback(env: Env)
    requires "VOICE_NEUTRAL_IDS" !in env || env["VOICE_NEUTRAL_IDS"] == ""
    ensures VoiceIds(env)["neutral"] == []
    ensures GetVoiceId(VoiceIds(env), "neutral").None?
  {
    EmptyPrimaryUsesFallback(env, "VOICE_NEUTRAL_IDS", "VOICE_NEUTRAL");
  }

  /** The friendly and professional tones fall back to their single-voice
      variables when their list variable is unset or empty. */
  lemma NamedTonesFallBack(env: Env)
    requires "VOICE_FRIENDLY_IDS" !in env || env["VOICE_FRIENDLY_IDS"] == ""
    requires "VOICE_PROFESSIONAL_IDS" !in env || env["VOICE_PROFESSIONAL_IDS"] == ""
    ensures VoiceIds(env)["friendly"] ==
              if "VOICE_FRIENDLY" in env && env["VOICE_FRIENDLY"] != "" then [env["VOICE_FRIENDLY"]] else []
    ensures VoiceIds(env)["professional"] ==
              if "VOICE_PROFESSIONAL" in env && env["VOICE_PROFESSIONAL"] != "" then [env["VOICE_PROFESSIONAL"]] else []
  {
    EmptyPrimaryUsesFallback(env, "VOICE_FRIENDLY_IDS", "VOICE_FRIENDLY");
    EmptyPrimaryUsesFallback(env, "VOICE_PROFESSIONAL_IDS", "VOICE_PROFESSIONAL");
  }

  /** `_get_voice_id(tone)`: the first voice of the tone's list; `None` for
      an unknown tone or an empty list. */
  function GetVoiceId(ids: map<string, seq<string>>, tone: string): (r: Option<string>)
    ensures r.Some? <==> tone in ids && ids[tone] != []
    ensures r.Some? ==> r.value == ids[tone][0]
  {
    var voices := if tone in ids then ids[tone] else [];
    if voices == [] then None else Some(voices[0])
  }

  /** With the configured lists, an unknown tone has no voice and a known
      tone's voice is never the empty string. */
  lemma ConfiguredVoiceId(env: Env, tone: string)
    ensures tone !in TONES ==> GetVoiceId(VoiceIds(env), tone).None?
    ensures GetVoiceId(VoiceIds(env), tone).Some? ==> GetVoiceId(VoiceIds(env), tone).value != ""
  {
  }

  /** The tone prompt of `process_speech_interaction`: the answer stripped
      and lower-cased if it names a tone, "neutral" otherwise. */
  function NormalizeTone(answer: string): (r: string)
    ensures r in TONES
    ensures Lower(Strip(answer)) in TONES ==> r == Lower(Strip(answer))
    ensures Lower(Strip(answer)) !in TONES ==> r == "neutral"
  {
    var t := Lower(Strip(answer));
    if t in TONES then t else "neutral"
  }

  /** Normalising a normalised tone changes nothing. */
  lemma NormalizeToneIdempotent(answer: string)
    ensures NormalizeTone(NormalizeTone(answer)) == NormalizeTone(answer)
  {
    ToneUnchanged(NormalizeTone(answer));
  }

  lemma ToneUnchanged(t: string)
    requires t in TONES
    ensures Lower(Strip(t)) == t
  {
    if t == "friendly" {
      StripStripped("friendly");
      LowerUnchanged("friendly");
    } else if t == "professional" {
      StripStripped("professional");
      LowerUnchanged("professional");
    } else {
      StripStripped("neutral");
      LowerUnchanged("neutral");
    }
  }

  /** The seven raw answers of `gather_user_input`. */
  datatype Answers = Answers(tuition: string, bankBalance: string, partTime: string,
                             internship: string, scholarships: string, loans: string,
                             months: string)

  /** `gather_user_input`: every answer through `clean_float`, and `months`
      truncated to an integer with `int()`. All seven fields are set, so the
      prediction uses none of its defaults. */
  function GatherUserInput(a: Answers, wordToNum: string -> Option<real>,
                           remote: string -> Option<real>): (p: AffordabilityModel.Profile)
    ensures forall i :: 0 <= i < 7 ==> AffordabilityModel.FEATURES[i] in p
    ensures "tuition" in p && p["tuition"] == CleanFloat(a.tuition, wordToNum, remote)
    ensures "bank_balance" in p && p["bank_balance"] == CleanFloat(a.bankBalance, wordToNum, remote)
    ensures "part_time_income" in p && p["part_time_income"] == CleanFloat(a.partTime, wordToNum, remote)
    ensures "internship_income" in p && p["internship_income"] == CleanFloat(a.internship, wordToNum, remote)
    ensures "scholarships" in p && p["scholarships"] == CleanFloat(a.scholarships, wordToNum, remote)
    ensures "loans" in p && p["loans"] == CleanFloat(a.loans, wordToNum, remote)
    ensures "months" in p && p["months"] == TruncToInt(CleanFloat(a.months, wordToNum, remote)) as real
    ensures var m := CleanFloat(a.months, wordToNum, remote);
            -1.0 < p["months"] - m < 1.0 && (p["months"] * 1.0).Floor as real == p["months"]
  {
    var clean := s => CleanFloat(s, wordToNum, remote);
    AnswersProfileNamed(a, clean);
    AnswersProfile(a, clean)
  }

  /** The profile of the seven answers, each read with `clean`. */
  function AnswersProfile(a: Answers, clean: string -> real): (p: AffordabilityModel.Profile)
  {
    AffordabilityModel.ProfileOf([clean(a.tuition), clean(a.bankBalance), clean(a.partTime),
                                  clean(a.internship), clean(a.scholarships), clean(a.loans),
                                  TruncToInt(clean(a.months)) as real])
  }

  lemma AnswersProfileNamed(a: Answers, clean: string -> real)
    ensures var p := AnswersProfile(a, clean);
            (forall i :: 0 <= i < 7 ==> AffordabilityModel.FEATURES[i] in p)
            && p["tuition"] == clean(a.tuition) && p["bank_balance"] == clean(a.bankBalance)
            && p["part_time_income"] == clean(a.partTime) && p["internship_income"] == clean(a.internship)
            && p["scholarships"] == clean(a.scholarships) && p["loans"] == clean(a.loans)
            && p["months"] == TruncToInt(clean(a.months)) as real
  {
    AffordabilityModel.ProfileOfNamed(clean(a.tuition), clean(a.bankBalance), clean(a.partTime),
                                  clean(a.internship), clean(a.scholarships), clean(a.loans),
                                  TruncToInt(clean(a.months)) as real);
  }
}
