/**
 * The symptom-chat responder `HealthChatbot` (app.py:149-187): a fixed knowledge base
 * and an ordered, first-match-wins lookup of a user's utterance in it.
 */
module Chatbot {
  import opened Wrappers
  import opened Strings

  /** A knowledge-base value: Python's `str`, or a `list` of `str`. */
  datatype Value = Message(text: string) | Phrases(phrases: seq<string>)

  /** A Python `dict` with string keys, as its items in insertion order. */
  type Dict<V> = seq<(string, V)>

  /** Category name to category dict, in declared order. */
  type KnowledgeBase = Dict<Dict<Value>>

  /** Python dicts never repeat a key. */
  predicate UniqueKeys<V>(d: Dict<V>) {
    forall i, j :: 0 <= i < j < |d| ==> d[i].0 != d[j].0
  }

  /** Position of `key` in `d`, if `key in d`. */
  function KeyIndex<V>(d: Dict<V>, key: string): (r: Option<nat>)
    ensures r.Some? ==> r.value < |d| && d[r.value].0 == key
    ensures forall j :: 0 <= j < |d| && (r.None? || j < r.value) ==> d[j].0 != key
  {
    if d == [] then None
    else if d[0].0 == key then Some(0)
    else match KeyIndex(d[1..], key)
      case None => None
      case Some(i) => Some(i + 1)
  }

  /** `d[key]` if `key in d`, else nothing. */
  function Lookup<V>(d: Dict<V>, key: string): (r: Option<V>)
    ensures r.Some? <==> exists i | 0 <= i < |d| :: d[i].0 == key
    ensures r.Some? ==> exists i | 0 <= i < |d| :: d[i] == (key, r.value)
  {
    match KeyIndex(d, key)
    case None => None
    case Some(i) => Some(d[i].1)
  }

  /** In a dict, the value stored with a key is what looking the key up gives. */
  lemma LookupFinds<V>(d: Dict<V>, i: nat)
    requires UniqueKeys(d) && i < |d|
    ensures Lookup(d, d[i].0) == Some(d[i].1)
  {
    var k := KeyIndex(d, d[i].0);
    assert k.Some?;
    assert k.value == i;
  }

  /** Some keyword of `keywords` is a substring of `u`. */
  predicate MentionsAny(u: string, keywords: seq<string>) {
    exists k | 0 <= k < |keywords| :: Contains(u, keywords[k])
  }

  /** Condition `c` answers `u` in the keyword step: not `general`, and one of its symptoms occurs in `u`. */
  predicate Fires(c: (string, Dict<Value>), u: string) {
    var symptoms := Lookup(c.1, "symptoms");
    c.0 != "general" && symptoms.Some? && symptoms.value.Phrases? &&
    MentionsAny(u, symptoms.value.phrases)
  }

  /**
   * The shape the responder relies on: dict keys are unique, and every condition other
   * than `general` has a list under "symptoms" and a value under "advice".
   */
  predicate WellFormed(kb: KnowledgeBase) {
    UniqueKeys(kb) &&
    (forall i :: 0 <= i < |kb| ==> UniqueKeys(kb[i].1)) &&
    (forall i :: 0 <= i < |kb| && kb[i].0 != "general" ==>
      Lookup(kb[i].1, "symptoms").Some? && Lookup(kb[i].1, "symptoms").value.Phrases? &&
      Lookup(kb[i].1, "advice").Some?)
  }

  /** The first category, in declared order, that has `u` as a key. */
  function ExactCategory(kb: KnowledgeBase, u: string): (r: Option<nat>)
    ensures r.Some? ==> r.value < |kb| && Lookup(kb[r.value].1, u).Some?
    ensures forall j :: 0 <= j < |kb| && (r.None? || j < r.value) ==> Lookup(kb[j].1, u).None?
  {
    if kb == [] then None
    else if Lookup(kb[0].1, u).Some? then Some(0)
    else match ExactCategory(kb[1..], u)
      case None => None
      case Some(i) => Some(i + 1)
  }

  /** The first condition, in declared order, that fires on `u`. */
  function KeywordCategory(kb: KnowledgeBase, u: string): (r: Option<nat>)
    ensures r.Some? ==> r.value < |kb| && Fires(kb[r.value], u)
    ensures forall j :: 0 <= j < |kb| && (r.None? || j < r.value) ==> !Fires(kb[j], u)
  {
    if kb == [] then None
    else if Fires(kb[0], u) then Some(0)
    else match KeywordCategory(kb[1..], u)
      case None => None
      case Some(i) => Some(i + 1)
  }

  const Fallback := "I'm not sure I understand. Could you describe your symptoms more specifically?"

  /** What `respond(user_input)` returns for knowledge base `kb`. */
  function Reply(kb: KnowledgeBase, userInput: string): (r: Value)
    requires WellFormed(kb)
    ensures r == Message(Fallback) || exists i, j | 0 <= i < |kb| && 0 <= j < |kb[i].1| :: kb[i].1[j].1 == r
  {
    var u := Lower(userInput);
    match ExactCategory(kb, u)
    case Some(i) => Lookup(kb[i].1, u).value
    case None =>
      match KeywordCategory(kb, u)
      case Some(i) => Lookup(kb[i].1, "advice").value
      case None => Message(Fallback)
  }

  const DiabetesSymptoms := ["thirst", "urinate", "hunger", "fatigue", "blurry vision"]
  const DiabetesAdvice := "These could be diabetes symptoms. Check your glucose levels and consider our diabetes assessment."
  const HeartSymptoms := ["chest pain", "shortness of breath", "nausea", "fatigue"]
  const HeartAdvice := "These may indicate heart issues. Try our heart disease assessment and consult a doctor if symptoms persist."
  const KidneySymptoms := ["swelling", "fatigue", "urination", "back pain"]
  const KidneyAdvice := "Possible kidney health issues."
  const Greeting := "Hello! I'm your health assistant. How can I help?"
  const HelpText := "I can help assess risks for diabetes, heart disease, and kidney health. Just describe your symptoms."
  const ThanksText := "You're welcome! Stay healthy!"

  /** The `general` category: greeting phrases and their replies. */
  const General: Dict<Value> := [("hi", Message(Greeting)), ("help", Message(HelpText)), ("thanks", Message(ThanksText))]

  /** The knowledge base `HealthChatbot.__init__` builds. */
  const DefaultKnowledgeBase: KnowledgeBase := [
    ("diabetes", Condition(DiabetesSymptoms, DiabetesAdvice)),
    ("heart", Condition(HeartSymptoms, HeartAdvice)),
    ("kidney", Condition(KidneySymptoms, KidneyAdvice)),
    ("general", General)
  ]

  /** A condition dict as `__init__` writes it: its symptom list, then its advice. */
  function Condition(symptoms: seq<string>, advice: string): Dict<Value> {
    [("symptoms", Phrases(symptoms)), ("advice", Message(advice))]
  }

  /** Every condition dict has unique keys and both entries `respond` reads. */
  lemma ConditionShape(symptoms: seq<string>, advice: string)
    ensures UniqueKeys(Condition(symptoms, advice))
    ensures Lookup(Condition(symptoms, advice), "symptoms") == Some(Phrases(symptoms))
    ensures Lookup(Condition(symptoms, advice), "advice") == Some(Message(advice))
  {
    var d := Condition(symptoms, advice);
    LookupFinds(d, 0);
    LookupFinds(d, 1);
  }

  /** The built-in knowledge base has the shape `respond` relies on. */
  lemma DefaultIsWellFormed()
    ensures WellFormed(DefaultKnowledgeBase)
  {
    ConditionShape(DiabetesSymptoms, DiabetesAdvice);
    ConditionShape(HeartSymptoms, HeartAdvice);
    ConditionShape(KidneySymptoms, KidneyAdvice);
  }

  /** `respond` of the chatbot `__init__` builds. */
  function DefaultReply(userInput: string): Value {
    DefaultIsWellFormed();
    Reply(DefaultKnowledgeBase, userInput)
  }

  /** The keys `respond` can match exactly in the built-in knowledge base. */
  predicate IsDefaultKey(u: string) {
    u == "symptoms" || u == "advice" || u == "hi" || u == "help" || u == "thanks"
  }

  /** A condition dict's only keys are "symptoms" and "advice". */
  lemma ConditionKeys(symptoms: seq<string>, advice: string, u: string)
    ensures Lookup(Condition(symptoms, advice), u).Some? <==> u == "symptoms" || u == "advice"
  {
    ConditionShape(symptoms, advice);
  }

  /** The `general` dict answers its three phrases and nothing else. */
  lemma GeneralKeys(u: string)
    ensures Lookup(General, u) ==
      if u == "hi" then Some(Message(Greeting))
      else if u == "help" then Some(Message(HelpText))
      else if u == "thanks" then Some(Message(ThanksText))
      else None
  {
    LookupFinds(General, 0);
    LookupFinds(General, 1);
    LookupFinds(General, 2);
  }

  /** The exact-key step on the built-in base: "symptoms" and "advice" stop at `diabetes`, the phrases at `general`. */
  lemma DefaultExactCategory(u: string)
    ensures ExactCategory(DefaultKnowledgeBase, u) ==
      if u == "symptoms" || u == "advice" then Some(0)
      else if u == "hi" || u == "help" || u == "thanks" then Some(3)
      else None
  {
    var kb := DefaultKnowledgeBase;
    ConditionKeys(DiabetesSymptoms, DiabetesAdvice, u);
    ConditionKeys(HeartSymptoms, HeartAdvice, u);
    ConditionKeys(KidneySymptoms, KidneyAdvice, u);
    GeneralKeys(u);
    if u == "symptoms" || u == "advice" {
      assert Lookup(kb[0].1, u).Some?;
    } else {
      assert Lookup(kb[0].1, u).None? && Lookup(kb[1].1, u).None? && Lookup(kb[2].1, u).None?;
      if u == "hi" || u == "help" || u == "thanks" {
        assert Lookup(kb[3].1, u).Some?;
      } else {
        assert Lookup(kb[3].1, u).None?;
      }
    }
  }

  /** The keyword step on the built-in base: diabetes is tried first, then heart, then kidney. */
  lemma DefaultKeywordCategory(u: string)
    ensures KeywordCategory(DefaultKnowledgeBase, u) ==
      if MentionsAny(u, DiabetesSymptoms) then Some(0)
      else if MentionsAny(u, HeartSymptoms) then Some(1)
      else if MentionsAny(u, KidneySymptoms) then Some(2)
      else None
  {
    var kb := DefaultKnowledgeBase;
    ConditionShape(DiabetesSymptoms, DiabetesAdvice);
    ConditionShape(HeartSymptoms, HeartAdvice);
    ConditionShape(KidneySymptoms, KidneyAdvice);
    assert Fires(kb[0], u) == MentionsAny(u, DiabetesSymptoms);
    assert Fires(kb[1], u) == MentionsAny(u, HeartSymptoms);
    assert Fires(kb[2], u) == MentionsAny(u, KidneySymptoms);
    assert !Fires(kb[3], u);
  }

  /** No exact key mentions a symptom keyword, so the two steps never compete on one utterance. */
  lemma KeysMentionNoSymptom(u: string)
    ensures IsDefaultKey(u) ==>
      !MentionsAny(u, DiabetesSymptoms) && !MentionsAny(u, HeartSymptoms) && !MentionsAny(u, KidneySymptoms)
  {
    if IsDefaultKey(u) {
      forall w | w in DiabetesSymptoms + HeartSymptoms + KidneySymptoms
        ensures !Contains(u, w)
      {
        if |u| < |w| {
          LongerNotContained(u, w);
        } else if 'u' in w {
          MissingCharNotContained(u, w, 'u');
        } else if 'r' in w {
          MissingCharNotContained(u, w, 'r');
        } else {
          MissingCharNotContained(u, w, 'w');
        }
      }
    }
  }

  /** `respond` sees the utterance only through `lower()`: lowering it first changes nothing. */
  lemma ReplyOfLowered(kb: KnowledgeBase, userInput: string)
    requires WellFormed(kb)
    ensures Reply(kb, Lower(userInput)) == Reply(kb, userInput)
  {
    LowerIdempotent(userInput);
  }

  /** Utterances that differ only in the case of their letters get the same reply. */
  lemma ReplyIgnoresCase(kb: KnowledgeBase, a: string, b: string)
    requires WellFormed(kb)
    requires |a| == |b| && forall i :: 0 <= i < |a| ==> LowerChar(a[i]) == LowerChar(b[i])
    ensures Reply(kb, a) == Reply(kb, b)
  {
    LowerAgrees(a, b);
  }

  /** A lowered utterance that is a key only of the `general` dict is answered from it. */
  lemma GeneralPhraseReply(userInput: string)
    requires var u := Lower(userInput); u == "hi" || u == "help" || u == "thanks"
    ensures Some(DefaultReply(userInput)) == Lookup(General, Lower(userInput))
  {
    var u := Lower(userInput);
    DefaultIsWellFormed();
    DefaultExactCategory(u);
    GeneralKeys(u);
    assert ExactCategory(DefaultKnowledgeBase, u) == Some(3);
  }

  /** A lowered utterance that is a key of the condition dicts is answered from `diabetes`, the first of them. */
  lemma ConditionKeyReply(userInput: string)
    requires var u := Lower(userInput); u == "symptoms" || u == "advice"
    ensures Some(DefaultReply(userInput)) == Lookup(Condition(DiabetesSymptoms, DiabetesAdvice), Lower(userInput))
  {
    var u := Lower(userInput);
    DefaultIsWellFormed();
    DefaultExactCategory(u);
    ConditionShape(DiabetesSymptoms, DiabetesAdvice);
    assert ExactCategory(DefaultKnowledgeBase, u) == Some(0);
  }

  /**
   * Exact keys are answered verbatim, before any keyword is tried. Because every
   * category is searched, "symptoms" and "advice" hit the first one, `diabetes`.
   */
  lemma ExactKeysAnswerVerbatim(userInput: string)
    ensures Lower(userInput) == "hi" ==> DefaultReply(userInput) == Message(Greeting)
    ensures Lower(userInput) == "help" ==> DefaultReply(userInput) == Message(HelpText)
    ensures Lower(userInput) == "thanks" ==> DefaultReply(userInput) == Message(ThanksText)
    ensures Lower(userInput) == "symptoms" ==> DefaultReply(userInput) == Phrases(DiabetesSymptoms)
    ensures Lower(userInput) == "advice" ==> DefaultReply(userInput) == Message(DiabetesAdvice)
  {
    var u := Lower(userInput);
    if u == "hi" || u == "help" || u == "thanks" {
      GeneralPhraseReply(userInput);
      GeneralKeys(u);
    } else if u == "symptoms" || u == "advice" {
      ConditionKeyReply(userInput);
      ConditionShape(DiabetesSymptoms, DiabetesAdvice);
    }
  }

  /** An utterance naming any diabetes symptom gets the diabetes advice, whatever else it names. */
  lemma DiabetesKeywordWins(userInput: string)
    requires MentionsAny(Lower(userInput), DiabetesSymptoms)
    ensures DefaultReply(userInput) == Message(DiabetesAdvice)
  {
    var u := Lower(userInput);
    DefaultIsWellFormed();
    KeysMentionNoSymptom(u);
    DefaultExactCategory(u);
    DefaultKeywordCategory(u);
  }

  /** "fatigue" is listed under diabetes, heart and kidney; diabetes, declared first, always wins. */
  lemma FatigueMeansDiabetes(userInput: string)
    requires Contains(Lower(userInput), "fatigue")
    ensures DefaultReply(userInput) == Message(DiabetesAdvice)
  {
    assert DiabetesSymptoms[3] == "fatigue";
    DiabetesKeywordWins(userInput);
  }

  /** A heart symptom with no diabetes symptom gets the heart advice. */
  lemma HeartKeywordWins(userInput: string)
    requires MentionsAny(Lower(userInput), HeartSymptoms)
    requires !MentionsAny(Lower(userInput), DiabetesSymptoms)
    ensures DefaultReply(userInput) == Message(HeartAdvice)
  {
    var u := Lower(userInput);
    DefaultIsWellFormed();
    KeysMentionNoSymptom(u);
    DefaultExactCategory(u);
    DefaultKeywordCategory(u);
  }

  /** A kidney symptom with no diabetes or heart symptom gets the kidney advice. */
  lemma KidneyKeywordWins(userInput: string)
    requires MentionsAny(Lower(userInput), KidneySymptoms)
    requires !MentionsAny(Lower(userInput), DiabetesSymptoms) && !MentionsAny(Lower(userInput), HeartSymptoms)
    ensures DefaultReply(userInput) == Message(KidneyAdvice)
  {
    var u := Lower(userInput);
    DefaultIsWellFormed();
    KeysMentionNoSymptom(u);
    DefaultExactCategory(u);
    DefaultKeywordCategory(u);
  }

  /** The fallback is returned exactly when the lowered utterance is no key and names no symptom. */
  lemma FallbackExactly(userInput: string)
    ensures DefaultReply(userInput) == Message(Fallback) <==>
      var u := Lower(userInput);
      !IsDefaultKey(u) &&
      !MentionsAny(u, DiabetesSymptoms) && !MentionsAny(u, HeartSymptoms) && !MentionsAny(u, KidneySymptoms)
  {
    var u := Lower(userInput);
    DefaultIsWellFormed();
    DefaultExactCategory(u);
    DefaultKeywordCategory(u);
    GeneralKeys(u);
    ConditionShape(DiabetesSymptoms, DiabetesAdvice);
    ConditionShape(HeartSymptoms, HeartAdvice);
    ConditionShape(KidneySymptoms, KidneyAdvice);
  }

  /** "hi" is answered with the greeting. */
  lemma GreetingExample()
    ensures DefaultReply("hi") == Message(Greeting)
  {
    LowerOfLowerCase("hi");
    ExactKeysAnswerVerbatim("hi");
  }

  /** "xyz" is too short to hold any symptom and is no key, so it gets the fallback. */
  lemma UnknownWordExample()
    ensures DefaultReply("xyz") == Message(Fallback)
  {
    LowerOfLowerCase("xyz");
    forall w | w in DiabetesSymptoms + HeartSymptoms + KidneySymptoms
      ensures !Contains("xyz", w)
    {
      LongerNotContained("xyz", w);
    }
    FallbackExactly("xyz");
  }

  /** Every diabetes symptom has a 'u' or an 'r', so an utterance with neither names none of them. */
  lemma NoDiabetesSymptomWithoutUOrR(u: string)
    requires 'u' !in u && 'r' !in u
    ensures !MentionsAny(u, DiabetesSymptoms)
  {
    forall w | w in DiabetesSymptoms
      ensures !Contains(u, w)
    {
      if 'u' in w {
        MissingCharNotContained(u, w, 'u');
      } else {
        MissingCharNotContained(u, w, 'r');
      }
    }
  }

  /** "chest pain" names a heart symptom and no diabetes symptom, so it gets the heart advice. */
  lemma ChestPainExample()
    ensures DefaultReply("chest pain") == Message(HeartAdvice)
  {
    ChestPainMentions();
    HeartKeywordWins("chest pain");
  }

  /** The lowered "chest pain" names the first heart symptom and no diabetes symptom. */
  lemma ChestPainMentions()
    ensures MentionsAny(Lower("chest pain"), HeartSymptoms)
    ensures !MentionsAny(Lower("chest pain"), DiabetesSymptoms)
  {
    PrefixContained("chest pain", HeartSymptoms[0]);
    NoDiabetesSymptomWithoutUOrR("chest pain");
    LowerOfLowerCase("chest pain");
  }

  /** An utterance that mentions thirst gets the diabetes advice, whatever else it names. */
  lemma ThirstMeansDiabetes(userInput: string)
    requires Contains(Lower(userInput), "thirst")
    ensures DefaultReply(userInput) == Message(DiabetesAdvice)
  {
    assert DiabetesSymptoms[0] == "thirst";
    DiabetesKeywordWins(userInput);
  }

  /** "thirst and fatigue" names diabetes symptoms (and "fatigue", shared with the others): diabetes wins. */
  lemma ThirstAndFatigueExample()
    ensures DefaultReply("thirst and fatigue") == Message(DiabetesAdvice)
  {
    ThirstAndFatigueMentionsThirst();
    ThirstMeansDiabetes("thirst and fatigue");
  }

  /** The lowered "thirst and fatigue" begins with "thirst". */
  lemma ThirstAndFatigueMentionsThirst()
    ensures Contains(Lower("thirst and fatigue"), "thirst")
  {
    PrefixContained("thirst and fatigue", "thirst");
    ThirstAndFatigueIsLowerCase();
  }

  /** "thirst and fatigue" has no capital letter. */
  lemma ThirstAndFatigueIsLowerCase()
    ensures Lower("thirst and fatigue") == "thirst and fatigue"
  {
    LowerOfLowerCase("thirst and fatigue");
  }

  /** The chatbot object; its only state is the knowledge base. */
  class HealthChatbot {
    var knowledgeBase: KnowledgeBase

    ghost predicate Valid()
      reads this
    {
      WellFormed(knowledgeBase)
    }

    constructor ()
      ensures Valid()
      ensures knowledgeBase == DefaultKnowledgeBase
    {
      knowledgeBase := DefaultKnowledgeBase;
      DefaultIsWellFormed();
    }

    /**
     * `respond`: the exact-key scan over every category, then the keyword scan over the
     * conditions, then the fallback. It has no modifies clause, so it leaves
     * `knowledgeBase` unchanged.
     */
    method Respond(userInput: string) returns (reply: Value)
      requires Valid()
      ensures reply == Reply(knowledgeBase, userInput)
    {
      var u := Lower(userInput);
      for i := 0 to |knowledgeBase|
        invariant forall j :: 0 <= j < i ==> Lookup(knowledgeBase[j].1, u).None?
      {
        var category := knowledgeBase[i].1;
        var hit := Lookup(category, u);
        if hit.Some? {
          assert ExactCategory(knowledgeBase, u) == Some(i);
          return hit.value;
        }
      }
      for i := 0 to |knowledgeBase|
        invariant forall j :: 0 <= j < i ==> !Fires(knowledgeBase[j], u)
      {
        var (condition, data) := knowledgeBase[i];
        if condition != "general" {
          var symptoms := Lookup(data, "symptoms").value.phrases;
          for k := 0 to |symptoms|
            invariant forall m :: 0 <= m < k ==> !Contains(u, symptoms[m])
          {
            if Contains(u, symptoms[k]) {
              assert Fires(knowledgeBase[i], u);
              assert KeywordCategory(knowledgeBase, u) == Some(i);
              return Lookup(data, "advice").value;
            }
          }
        }
      }
      return Message(Fallback);
    }
  }
}
