/**
  * The cattle-disease form: the symptom checklist (toggle, search filter),
  * the prediction request with its two fallbacks, and the display helpers
  * that title-case a disease name and take the consensus of the four
  * classifiers' answers.
  */
module DiseaseDetection {
  import opened Wrappers

  /** The checklist, in display order (`cattleSymptoms`). */
  const CattleSymptoms: seq<string> := [
    "anorexia", "abdominal_pain", "anaemia", "abortions", "acetone",
    "aggression", "arthrogyposis", "ankylosis", "anxiety", "bellowing",
    "blood_loss", "blood_poisoning", "blisters", "colic",
    "Condemnation_of_livers", "coughing", "depression", "discomfort",
    "dyspnea", "dysentery", "diarrhoea", "dehydration", "drooling", "dull",
    "decreased_fertility", "diffculty_breath", "emaciation",
    "encephalitis", "fever", "facial_paralysis", "frothing_of_mouth",
    "frothing", "gaseous_stomach", "highly_diarrhoea", "high_pulse_rate",
    "high_temp", "high_proportion", "hyperaemia", "hydrocephalus",
    "isolation_from_herd", "infertility", "intermittent_fever", "jaundice",
    "ketosis", "loss_of_appetite", "lameness", "lack_of-coordination",
    "lethargy", "lacrimation", "milk_flakes", "milk_watery", "milk_clots",
    "mild_diarrhoea", "moaning", "mucosal_lesions", "milk_fever", "nausea",
    "nasel_discharges", "oedema", "pain", "painful_tongue", "pneumonia",
    "photo_sensitization", "quivering_lips", "reduction_milk_vields",
    "rapid_breathing", "rumenstasis", "reduced_rumination",
    "reduced_fertility", "reduced_fat", "reduces_feed_intake",
    "raised_breathing", "stomach_pain", "salivation", "stillbirths",
    "shallow_breathing", "swollen_pharyngeal", "swelling", "saliva",
    "swollen_tongue", "tachycardia", "torticollis", "udder_swelling",
    "udder_heat", "udder_hardeness", "udder_redness", "udder_pain",
    "unwillingness_to_move", "ulcers", "vomiting", "weight_loss",
    "weakness"
  ]

  predicate NoDuplicates(s: seq<string>)
  {
    forall i, j :: 0 <= i < j < |s| ==> s[i] != s[j]
  }

  // ---------------------------------------------------------------------
  // Selection (`handleSymptomToggle`)

  /** `prev.filter((s) => s !== symptom)`: every occurrence of `x` removed, order kept. */
  function RemoveAll(s: seq<string>, x: string): (r: seq<string>)
    ensures forall y :: y in r <==> y in s && y != x
    ensures |r| <= |s|
  {
    if s == [] then [] else (if s[0] == x then [] else [s[0]]) + RemoveAll(s[1..], x)
  }

  /** Filtering a concatenation filters each part: the survivors keep their relative order. */
  lemma {:induction false} RemoveAllAppend(a: seq<string>, b: seq<string>, x: string)
    ensures RemoveAll(a + b, x) == RemoveAll(a, x) + RemoveAll(b, x)
  {
    if a != [] {
      assert (a + b)[1..] == a[1..] + b;
      RemoveAllAppend(a[1..], b, x);
    } else {
      assert a + b == b;
    }
  }

  lemma {:induction false} RemoveAllAbsent(s: seq<string>, x: string)
    requires x !in s
    ensures RemoveAll(s, x) == s
  {
    if s != [] {
      RemoveAllAbsent(s[1..], x);
    }
  }

  lemma {:induction false} RemoveAllNoDuplicates(s: seq<string>, x: string)
    requires NoDuplicates(s)
    ensures NoDuplicates(RemoveAll(s, x))
  {
    if s != [] {
      RemoveAllNoDuplicates(s[1..], x);
      assert s[0] !in s[1..];
    }
  }

  /**
    * The new selection after clicking `symptom`: a selected symptom is
    * dropped, an unselected one is appended at the end.
    */
  function ToggleSymptom(selected: seq<string>, symptom: string): (r: seq<string>)
    ensures forall y :: y in r <==> (y in selected <==> y != symptom)
    ensures symptom !in selected ==> r == selected + [symptom]
  {
    if symptom in selected then RemoveAll(selected, symptom) else selected + [symptom]
  }

  /** A selection without repeats stays without repeats. */
  lemma ToggleKeepsNoDuplicates(selected: seq<string>, symptom: string)
    requires NoDuplicates(selected)
    ensures NoDuplicates(ToggleSymptom(selected, symptom))
  {
    if symptom in selected {
      RemoveAllNoDuplicates(selected, symptom);
    }
  }

  /** Clicking an unselected symptom twice gives back the original selection. */
  lemma ToggleTwiceRestores(selected: seq<string>, symptom: string)
    requires symptom !in selected
    ensures ToggleSymptom(ToggleSymptom(selected, symptom), symptom) == selected
  {
    RemoveAllAppend(selected, [symptom], symptom);
    RemoveAllAbsent(selected, symptom);
    assert RemoveAll([symptom], symptom) == [];
  }

  // ---------------------------------------------------------------------
  // Search (`filteredSymptoms`)

  /** `toLowerCase` on the ASCII letters the symptom names are written in. */
  function ToLowerChar(c: char): char
  {
    if 'A' <= c <= 'Z' then (c as int + 32) as char else c
  }

  function ToLower(s: string): string
  {
    seq(|s|, i requires 0 <= i < |s| => ToLowerChar(s[i]))
  }

  /** `t` occurs in `s` starting at position `i`. */
  predicate OccursAt(s: string, t: string, i: int)
  {
    0 <= i && i + |t| <= |s| && s[i..i + |t|] == t
  }

  /** `s.includes(t)`. */
  function Includes(s: string, t: string): bool
  {
    if |t| > |s| then false
    else if t <= s then true
    else Includes(s[1..], t)
  }

  lemma {:induction false} IncludesIffOccurs(s: string, t: string)
    ensures Includes(s, t) <==> exists i :: OccursAt(s, t, i)
  {
    if |t| > |s| {
    } else if t <= s {
      assert OccursAt(s, t, 0);
    } else {
      IncludesIffOccurs(s[1..], t);
      if i :| OccursAt(s, t, i) {
        assert i != 0;
        assert s[1..][i - 1..i - 1 + |t|] == s[i..i + |t|];
        assert OccursAt(s[1..], t, i - 1);
      }
      if j :| OccursAt(s[1..], t, j) {
        assert s[1..][j..j + |t|] == s[j + 1..j + 1 + |t|];
        assert OccursAt(s, t, j + 1);
      }
    }
  }

  /** The search box keeps `symptom` (case-insensitive substring match). */
  predicate MatchesSearch(symptom: string, term: string)
  {
    Includes(ToLower(symptom), ToLower(term))
  }

  function FilterSymptoms(list: seq<string>, term: string): (r: seq<string>)
    ensures forall x :: x in r <==> x in list && MatchesSearch(x, term)
    ensures |r| <= |list|
  {
    if list == [] then []
    else (if MatchesSearch(list[0], term) then [list[0]] else []) + FilterSymptoms(list[1..], term)
  }

  /** The filter keeps the checklist order: it distributes over concatenation. */
  lemma {:induction false} FilterAppend(a: seq<string>, b: seq<string>, term: string)
    ensures FilterSymptoms(a + b, term) == FilterSymptoms(a, term) + FilterSymptoms(b, term)
  {
    if a != [] {
      assert (a + b)[1..] == a[1..] + b;
      FilterAppend(a[1..], b, term);
    } else {
      assert a + b == b;
    }
  }

  /** An empty search box shows the whole list. */
  lemma {:induction false} FilterEmptyTerm(list: seq<string>)
    ensures FilterSymptoms(list, "") == list
  {
    if list != [] {
      assert ToLower("") == "";
      FilterEmptyTerm(list[1..]);
    }
  }

  /** The list the page shows for a search term. */
  function FilteredSymptoms(term: string): (r: seq<string>)
    ensures forall x :: x in r <==> x in CattleSymptoms && MatchesSearch(x, term)
  {
    FilterSymptoms(CattleSymptoms, term)
  }

  // ---------------------------------------------------------------------
  // Prediction (`handlePredict`)

  /** The four classifiers' answers, in the order the object lists them. */
  datatype ModelVotes = ModelVotes(decisionTree: string, randomForest: string, knn: string, naiveBayes: string)
  {
    function Values(): seq<string>
    {
      [decisionTree, randomForest, knn, naiveBayes]
    }
  }

  datatype PredictionResult = PredictionResult(inputSymptoms: seq<string>, predictions: ModelVotes)

  /** How the request to `/predict` ended. */
  datatype PredictOutcome = Answered(body: PredictionResult) | NotOk | Threw

  datatype FormState = FormState(symptoms: seq<string>, prediction: Option<PredictionResult>, isLoading: bool)

  const MinSymptoms: nat := 2

  const NotOkVotes := ModelVotes("gut_worms", "gut_worms", "mastitis", "gut_worms")

  const Undetermined := "unable_to_determine"

  /**
    * The form state after `handlePredict` settles: nothing happens below two
    * symptoms; otherwise the server's answer, or a fallback that echoes the
    * selection, is shown and loading ends.
    */
  function HandlePredict(st: FormState, outcome: PredictOutcome): (r: FormState)
    ensures |st.symptoms| < MinSymptoms ==> r == st
    ensures |st.symptoms| >= MinSymptoms ==>
      && r.symptoms == st.symptoms && !r.isLoading && r.prediction.Some?
      && (outcome.Answered? ==> r.prediction.value == outcome.body)
      && (!outcome.Answered? ==> r.prediction.value.inputSymptoms == st.symptoms)
      && (outcome.Threw? ==> forall v :: v in r.prediction.value.predictions.Values() ==> v == Undetermined)
  {
    if |st.symptoms| < MinSymptoms then st
    else
      var shown := match outcome
        case Answered(body) => body
        case NotOk => PredictionResult(st.symptoms, NotOkVotes)
        case Threw => PredictionResult(st.symptoms, ModelVotes(Undetermined, Undetermined, Undetermined, Undetermined));
      FormState(st.symptoms, Some(shown), false)
  }

  // ---------------------------------------------------------------------
  // Display (`formatDiseaseName`, `getConsensus`)

  /** A character `\w` matches once underscores are gone: an ASCII letter or digit. */
  predicate IsAlnum(c: char)
  {
    'a' <= c <= 'z' || 'A' <= c <= 'Z' || '0' <= c <= '9'
  }

  predicate IsWordChar(c: char)
  {
    IsAlnum(c) || c == '_'
  }

  function ToUpperChar(c: char): char
  {
    if 'a' <= c <= 'z' then (c as int - 32) as char else c
  }

  /** `replace(/_/g, " ")`. */
  function ReplaceUnderscores(s: string): string
  {
    seq(|s|, i requires 0 <= i < |s| => if s[i] == '_' then ' ' else s[i])
  }

  /** `replace(/\b\w/g, upper)`; `afterWord` says whether a word character precedes `s`. */
  function CapitalizeWords(s: string, afterWord: bool): string
  {
    if s == [] then []
    else [if IsWordChar(s[0]) && !afterWord then ToUpperChar(s[0]) else s[0]]
         + CapitalizeWords(s[1..], IsWordChar(s[0]))
  }

  function FormatDiseaseName(disease: string): string
  {
    CapitalizeWords(ReplaceUnderscores(disease), false)
  }

  /** Position `i` of a disease name starts a word: underscores and other non-alphanumerics separate words. */
  predicate StartsWord(s: string, i: int)
    requires 0 <= i < |s|
  {
    IsAlnum(s[i]) && (i == 0 || !IsAlnum(s[i - 1]))
  }

  lemma {:induction false} CapitalizeWordsAt(s: string, afterWord: bool, i: nat)
    requires i < |s|
    ensures |CapitalizeWords(s, afterWord)| == |s|
    ensures var before := if i == 0 then afterWord else IsWordChar(s[i - 1]);
            CapitalizeWords(s, afterWord)[i]
            == if IsWordChar(s[i]) && !before then ToUpperChar(s[i]) else s[i]
  {
    if i == 0 {
      CapitalizeWordsLength(s[1..], IsWordChar(s[0]));
    } else {
      CapitalizeWordsAt(s[1..], IsWordChar(s[0]), i - 1);
    }
  }

  lemma {:induction false} CapitalizeWordsLength(s: string, afterWord: bool)
    ensures |CapitalizeWords(s, afterWord)| == |s|
  {
    if s != [] {
      CapitalizeWordsLength(s[1..], IsWordChar(s[0]));
    }
  }

  /**
    * The formatted name has the input's length and no underscore; each
    * character is the input's, with `_` turned into a space and a letter
    * that starts a word upper-cased.
    */
  lemma FormatDiseaseNameAt(disease: string)
    ensures |FormatDiseaseName(disease)| == |disease|
    ensures '_' !in FormatDiseaseName(disease)
    ensures forall i :: 0 <= i < |disease| ==>
      FormatDiseaseName(disease)[i]
      == if disease[i] == '_' then ' '
         else if StartsWord(disease, i) then ToUpperChar(disease[i])
         else disease[i]
  {
    var u := ReplaceUnderscores(disease);
    CapitalizeWordsLength(u, false);
    forall i | 0 <= i < |disease|
      ensures FormatDiseaseName(disease)[i]
           == if disease[i] == '_' then ' '
              else if StartsWord(disease, i) then ToUpperChar(disease[i])
              else disease[i]
    {
      CapitalizeWordsAt(u, false, i);
    }
  }

  /** Formatting an already formatted name changes nothing. */
  lemma FormatDiseaseNameIdempotent(disease: string)
    ensures FormatDiseaseName(FormatDiseaseName(disease)) == FormatDiseaseName(disease)
  {
    var r := FormatDiseaseName(disease);
    FormatDiseaseNameAt(disease);
    FormatDiseaseNameAt(r);
    forall i | 0 <= i < |r|
      ensures IsAlnum(r[i]) == IsAlnum(disease[i])
    {
    }
    forall i | 0 <= i < |r|
      ensures FormatDiseaseName(r)[i] == r[i]
    {
      assert StartsWord(r, i) == StartsWord(disease, i);
    }
  }

  /** How many of the answers name `answer`. */
  function Count(votes: seq<string>, answer: string): nat
  {
    multiset(votes)[answer]
  }

  lemma {:induction false} CountBounds(votes: seq<string>, answer: string)
    ensures Count(votes, answer) <= |votes|
    ensures answer in votes ==> Count(votes, answer) >= 1
  {
    if votes != [] {
      var init := votes[..|votes| - 1];
      assert votes == init + [votes[|votes| - 1]];
      CountBounds(init, answer);
    }
  }

  /**
    * The `reduce` of `getConsensus`: a count per answer, and the answers in
    * the order they were first inserted into the dictionary; `firsts` gives
    * the position of each key's first appearance.
    */
  method CountAnswers(votes: seq<string>)
      returns (counts: map<string, nat>, keys: seq<string>, ghost firsts: seq<nat>)
    ensures forall k :: k in counts <==> k in votes
    ensures forall k :: k in counts ==> counts[k] == Count(votes, k)
    ensures forall k :: k in keys <==> k in votes
    ensures |firsts| == |keys|
    ensures forall a :: 0 <= a < |keys| ==>
      firsts[a] < |votes| && votes[firsts[a]] == keys[a] && keys[a] !in votes[..firsts[a]]
    ensures forall a, b :: 0 <= a < b < |keys| ==> firsts[a] < firsts[b]
  {
    counts, keys, firsts := map[], [], [];
    for i := 0 to |votes|
      invariant forall k :: k in counts <==> k in votes[..i]
      invariant forall k :: k in counts ==> counts[k] == Count(votes[..i], k)
      invariant forall k :: k in keys <==> k in counts
      invariant |firsts| == |keys|
      invariant forall a :: 0 <= a < |keys| ==>
        firsts[a] < i && votes[firsts[a]] == keys[a] && keys[a] !in votes[..firsts[a]]
      invariant forall a, b :: 0 <= a < b < |keys| ==> firsts[a] < firsts[b]
    {
      var v := votes[i];
      assert votes[..i + 1] == votes[..i] + [v];
      if v !in counts {
        keys, firsts := keys + [v], firsts + [i];
      }
      counts := counts[v := (if v in counts then counts[v] else 0) + 1];
    }
    assert votes[..|votes|] == votes;
  }

  /**
    * Among keys listed in order of first appearance, the first one whose
    * count is the largest beats every answer that appears before it.
    */
  lemma FirstLargestCount(votes: seq<string>, keys: seq<string>, firsts: seq<nat>, values: seq<nat>, idx: nat)
    requires forall k :: k in keys <==> k in votes
    requires |firsts| == |keys|
    requires forall a :: 0 <= a < |keys| ==>
      firsts[a] < |votes| && votes[firsts[a]] == keys[a] && keys[a] !in votes[..firsts[a]]
    requires forall a, b :: 0 <= a < b < |keys| ==> firsts[a] < firsts[b]
    requires |values| == |keys| && forall a :: 0 <= a < |keys| ==> values[a] == Count(votes, keys[a])
    requires idx < |keys|
    requires forall v :: v in values ==> v <= values[idx]
    requires forall a :: 0 <= a < idx ==> values[a] != values[idx]
    ensures forall v :: v in votes ==> Count(votes, v) <= Count(votes, keys[idx])
    ensures forall j :: 0 <= j < |votes| && keys[idx] !in votes[..j + 1] ==>
      Count(votes, votes[j]) < Count(votes, keys[idx])
  {
    var disease := keys[idx];
    forall a | 0 <= a < |keys|
      ensures Count(votes, keys[a]) <= Count(votes, disease)
    {
      assert values[a] in values;
    }
    assert forall a :: 0 <= a < idx ==> Count(votes, keys[a]) < Count(votes, disease);
    forall v | v in votes
      ensures Count(votes, v) <= Count(votes, disease)
    {
      assert v in keys;
      var a :| 0 <= a < |keys| && keys[a] == v;
    }
    forall j | 0 <= j < |votes| && disease !in votes[..j + 1]
      ensures Count(votes, votes[j]) < Count(votes, disease)
    {
      var w := votes[j];
      assert w in keys;
      var a :| 0 <= a < |keys| && keys[a] == w;
      assert forall i :: 0 <= i < firsts[a] ==> votes[i] != w;
      assert forall i :: 0 <= i <= j ==> votes[i] != disease;
      assert a < idx;
    }
  }

  /** `Math.max(...values)`. */
  method MaxOf(values: seq<nat>) returns (m: nat)
    requires |values| > 0
    ensures m in values
    ensures forall v :: v in values ==> v <= m
  {
    m := values[0];
    for k := 1 to |values|
      invariant m in values[..k]
      invariant forall a :: 0 <= a < k ==> values[a] <= m
    {
      if values[k] > m {
        m := values[k];
      }
    }
    assert values[..|values|] == values;
  }

  /** `findIndex` of the first entry equal to `target`. */
  method FindFirst(values: seq<nat>, target: nat) returns (idx: nat)
    requires target in values
    ensures idx < |values| && values[idx] == target
    ensures forall a :: 0 <= a < idx ==> values[a] != target
  {
    idx := 0;
    while values[idx] != target
      invariant idx < |values|
      invariant forall a :: 0 <= a < idx ==> values[a] != target
      decreases |values| - idx
    {
      idx := idx + 1;
    }
  }

  /**
    * `getConsensus` on the answers `Object.values` lists, in the order the
    * prediction object holds its keys (the response's order for a server
    * answer, `Values()` for a fallback): an answer with the largest count,
    * the first such in order of first appearance, and that count as a
    * percentage of four votes.
    */
  method GetConsensus(votes: seq<string>) returns (disease: string, confidence: nat)
    requires |votes| > 0
    ensures disease in votes
    ensures forall v :: v in votes ==> Count(votes, v) <= Count(votes, disease)
    ensures forall j :: 0 <= j < |votes| && disease !in votes[..j + 1] ==>
      Count(votes, votes[j]) < Count(votes, disease)
    ensures confidence == 25 * Count(votes, disease)
    ensures 25 <= confidence <= 25 * |votes|
  {
    var counts, keys, firsts := CountAnswers(votes);
    assert votes[0] in keys;
    // `Object.values(counts)`, in key order
    var values := seq(|keys|, a requires 0 <= a < |keys| => counts[keys[a]]);
    var maxCount := MaxOf(values);
    // `Object.keys(counts).find((key) => counts[key] === maxCount)`
    var idx := FindFirst(values, maxCount);
    disease := keys[idx];
    assert forall a :: 0 <= a < |keys| ==> values[a] == Count(votes, keys[a]);
    FirstLargestCount(votes, keys, firsts, values, idx);
    CountBounds(votes, disease);
    // `Math.round((maxCount / 4) * 100)`, exact for a whole count
    confidence := maxCount * 100 / 4;
  }
}
