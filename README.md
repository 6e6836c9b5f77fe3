# HealthGuard Pro core, modelled in Dafny

HealthGuard Pro is a Streamlit page (`app.py`) with four tools: a symptom chat, a
diabetes and a heart-disease risk assessment, and a BMI calculator. This project models
the logic behind those tools: what the chatbot answers, how a chat exchange is
recorded, how the assessment forms become the feature vectors the pre-trained models
read, how a prediction becomes the message shown, and how the BMI and its tier are
computed. Everything about rendering is left out.

Modules, one per file:

- `Wrappers` (`wrappers.dfy`): `Option` and `Result` with failure propagation.
- `Strings` (`strings.dfy`): Python's `str.lower()` on ASCII letters, `str.strip()` with
  Python's whitespace set, and substring containment (`a in b`).
- `Chatbot` (`chatbot.dfy`): the knowledge base as an ordered dict of dicts. `Reply` is a
  function that states what `respond` returns. The class `HealthChatbot` holds the
  knowledge base, and its `Respond` method has the three loops of the source and is
  proved equal to `Reply`. The lemmas give the reply on the built-in base for each
  kind of utterance.
- `Chat` (`chat.dfy`): the chat page's session state as a class `ChatSession`, whose
  `Submit` appends one exchange. The invariant is that the history is a sequence of
  (user turn, bot reply to it) pairs.
- `Features` (`features.dfy`): the diabetes vector and the heart encoder. The heart
  encoder includes its dict lookups, and a missing label fails with `KeyError`. Each
  encoding gets a decoder that proves it loses nothing on any form the select boxes
  can produce.
- `Risk` (`risk.dfy`): scaling and classification, with the scaler and the classifier as
  function parameters. It also holds the choice of messages.
- `Bmi` (`bmi.dfy`): unit conversion, the index over exact reals, and the tier cascade.

Three behaviours of the code worth knowing:

- The assessment forms perform no range validation beyond the widgets' own bounds.
- Sex, fasting blood sugar and exercise angina are encoded as 0 for any label other than
  exactly `"Male"`/`"Yes"`, so they can never fail.
- The exact-match step searches every category, the conditions included. So the
  utterances "symptoms" and "advice" are answered from the first category, `diabetes`.
  "symptoms" is answered with its symptom list, not with a string.

## Model

| member | source | states |
|---|---|---|
| Strings.Lower | app.py:172 | the lowered string has the input's length and lowers each character independently |
| Strings.LowerIdempotent | app.py:172 | lowering twice is lowering once |
| Strings.TrimStart | app.py:233 | the left half of `strip()`: what is kept is a suffix of the input, everything cut is whitespace, and the kept part does not start with whitespace |
| Strings.TrimEnd | app.py:233 | the right half of `strip()`: what is kept is a prefix of the input, everything cut is whitespace, and the kept part does not end with whitespace |
| Strings.PrefixContained | app.py:183 | `needle in haystack` holds whenever the needle is a prefix of the haystack |
| Strings.LongerNotContained | app.py:183 | `needle in haystack` never holds for a needle longer than the haystack |
| Strings.MissingCharNotContained | app.py:183 | `needle in haystack` never holds when the haystack lacks a character of the needle |
| Strings.StripEmptyIffBlank | app.py:233 | `strip()` yields the empty string exactly when every character is whitespace |
| Chatbot.KeyIndex | app.py:176-177 | the position found holds the key, and no earlier entry does; none means no entry has the key |
| Chatbot.Lookup | app.py:176-177 | a lookup finds a value exactly when some entry has the key, and the value found is stored with that key |
| Chatbot.LookupFinds | app.py:177 | in a dict with unique keys, looking up an entry's key yields that entry's value |
| Chatbot.ExactCategory | app.py:175-177 | the category returned is the first, in declared order, that has the utterance as a key |
| Chatbot.KeywordCategory | app.py:179-184 | the condition returned is the first non-`general` one, in declared order, whose symptom list has a substring of the utterance |
| Chatbot.Reply | app.py:171-187 | for any well-formed knowledge base, `respond` answers with a value stored in the base or with the fallback text |
| Chatbot.DefaultIsWellFormed | app.py:151-169 | the built-in knowledge base has unique keys, and every condition has a symptom list and an advice string |
| Chatbot.ConditionKeys | app.py:152-163 | a condition dict answers exactly the keys "symptoms" and "advice" |
| Chatbot.GeneralKeys | app.py:164-168 | the `general` dict answers "hi", "help" and "thanks" with their texts and nothing else |
| Chatbot.DefaultExactCategory | app.py:175-177 | on the built-in base, "symptoms"/"advice" stop at `diabetes`, the three phrases at `general`, and nothing else matches exactly |
| Chatbot.DefaultKeywordCategory | app.py:179-184 | on the built-in base, the keyword step tries diabetes, then heart, then kidney |
| Chatbot.KeysMentionNoSymptom | app.py:151-169 | no exact key contains a symptom keyword, so the two steps never compete for one utterance |
| Chatbot.ReplyOfLowered | app.py:172 | lowering the utterance before `respond` changes no reply |
| Chatbot.ReplyIgnoresCase | app.py:172 | utterances equal up to letter case get the same reply |
| Chatbot.ExactKeysAnswerVerbatim | app.py:175-177 | "hi", "help" and "thanks" get their texts; "symptoms" gets the diabetes symptom list and "advice" the diabetes advice |
| Chatbot.DiabetesKeywordWins | app.py:179-184 | any utterance naming a diabetes symptom gets the diabetes advice |
| Chatbot.FatigueMeansDiabetes | app.py:153-162 | "fatigue", listed under all three conditions, always yields the diabetes advice |
| Chatbot.ThirstMeansDiabetes | app.py:153-184 | any utterance mentioning thirst gets the diabetes advice |
| Chatbot.HeartKeywordWins | app.py:179-184 | a heart symptom without any diabetes symptom yields the heart advice |
| Chatbot.KidneyKeywordWins | app.py:179-184 | a kidney symptom without any diabetes or heart symptom yields the kidney advice |
| Chatbot.FallbackExactly | app.py:186-187 | the fallback is returned if and only if the lowered utterance is no key and names no symptom |
| Chatbot.GreetingExample | app.py:164-165 | "hi" is answered with the greeting |
| Chatbot.UnknownWordExample | app.py:186-187 | "xyz" is answered with the fallback |
| Chatbot.ChestPainExample | app.py:157 | "chest pain" is answered with the heart advice |
| Chatbot.ThirstAndFatigueExample | app.py:153 | "thirst and fatigue" is answered with the diabetes advice |
| Chatbot.HealthChatbot.constructor | app.py:150-169 | a new chatbot holds the built-in knowledge base, which is well formed |
| Chatbot.HealthChatbot.Respond | app.py:171-187 | the three loops return exactly `Reply` of the held knowledge base: exact key first, then symptom keyword, then the fallback |
| Chat.Submitted | app.py:233 | input counts as submitted exactly when some character is not whitespace |
| Chat.AnsweredExtend | app.py:233-238 | appending a submitted question and the bot's reply to it keeps the history a sequence of exchanges |
| Chat.AnsweredAlternates | app.py:234-238 | in such a history the turns alternate, user first, so its length is even |
| Chat.ChatSession.constructor | app.py:209-216 | a new session has an empty history, a new built-in chatbot and no pending reset |
| Chat.ChatSession.Submit | app.py:233-241 | non-blank input appends the user turn, then the reply, and sets the reset flag; blank input changes nothing; the history stays a sequence of exchanges |
| Features.DiabetesVector | app.py:309-312 | the diabetes vector has eight entries |
| Features.DiabetesRoundTrip | app.py:309-312 | every field of the diabetes form is read back unchanged from its vector, in the form's order |
| Features.DiabetesDecodeEncodes | app.py:309-312 | every vector that decodes to a form is that form's encoding |
| Features.Flag | app.py:371-389 | a flag is 0 or 1, and 1 exactly when the choice is the "yes" label |
| Features.Translate | app.py:378-403 | a table lookup succeeds exactly for a label in the table, with that label's code; otherwise it fails with `KeyError` of the label |
| Features.EncodeHeart | app.py:370-408 | a successful heart encoding has thirteen entries |
| Features.CodeTablesFollowOptions | app.py:336-402 | each code table accepts exactly its select box's options and codes each one by its position |
| Features.CodeTablesInjectiveAndBounded | app.py:372-402 | no two labels share a code; codes are 0..3 for chest pain and 0..2 for the others |
| Features.PositionalCoding | app.py:372-402 | coding labels by their positions in a list gives an injective table onto those positions |
| Features.HeartEncodingFailure | app.py:378-403 | encoding fails if and only if a looked-up label is unknown, with `KeyError` carrying the first such label in source order |
| Features.BinaryFeatures | app.py:371-389 | sex, fasting blood sugar and exercise angina are 0 or 1, and 1 exactly for "Male"/"Yes" |
| Features.CategoricalFeaturesInRange | app.py:378-403 | the categorical entries of the vector stay within their tables' code ranges |
| Features.OptionAtCode | app.py:372-402 | decoding a label's code by position gives the label back |
| Features.FlagLabelOfFlag | app.py:371-389 | decoding a 0/1 flag taken from one of two labels gives the label back |
| Features.HeartRoundTrip | app.py:370-408 | for any form the select boxes can produce, encoding succeeds and the vector decodes to the same form |
| Risk.Classify | app.py:315-326 | the verdict is high risk exactly when the classifier's label for the scaled vector is 1; the probability is the positive-class probability of the scaled vector |
| Risk.AssessDiabetes | app.py:309-326 | the diabetes assessment is high risk exactly when the classifier labels the scaled diabetes vector 1, reports its positive-class probability, and shows the matching diabetes messages |
| Risk.AssessHeart | app.py:370-422 | a successful heart assessment classifies the encoded vector: high risk exactly when its scaled form is labelled 1, with its positive-class probability and the matching heart messages |
| Risk.MessagesFollowLabel | app.py:321-326 | the high-risk headline and advice are shown exactly when the label is 1 |
| Risk.MessagesDistinct | app.py:321-422 | the four headlines differ from one another, and so do the four advice lines |
| Risk.HeartAssessmentPropagates | app.py:378-422 | the heart assessment fails exactly when the encoder does, with the encoder's error; otherwise it classifies the encoded vector |
| Risk.HeartAssessmentTotalOnOptions | app.py:334-422 | every form the select boxes can produce is assessed |
| Bmi.FeetInchesToCm | app.py:441 | feet and inches become their total in inches times 2.54 cm |
| Bmi.PoundsToKg | app.py:449 | a positive weight in pounds is a positive weight in kilograms |
| Bmi.PoundsMonotone | app.py:449 | more pounds never become fewer kilograms |
| Bmi.HeightCm | app.py:434-441 | any height the widgets allow lies between 30.48 and 300 cm |
| Bmi.WeightKg | app.py:443-449 | any weight the widgets allow is positive |
| Bmi.BodyMassIndex | app.py:454 | the index times the height in metres, squared, is the weight; a positive weight gives a positive index |
| Bmi.Calculate | app.py:453-468 | the shown index satisfies the same identity and is positive for any allowed input; the tier is the cascade's tier of that index |
| Bmi.TierOf | app.py:457-468 | each tier is exactly its half-open interval: below 18.5, [18.5, 25), [25, 30), 30 and above |
| Bmi.TierBoundaries | app.py:457-466 | each boundary value falls into the upper tier |
| Bmi.TierMonotone | app.py:457-468 | a larger index never lands in a lighter tier |
| Bmi.HeavierNeverLighter | app.py:454-468 | at a fixed height, a heavier weight never lands in a lighter tier |
| Bmi.DefaultFormIsNormal | app.py:437-462 | the form's defaults, 170 cm and 70 kg, give a normal weight |
| Bmi.TierTextsDistinct | app.py:457-468 | each tier has its own heading and its own advice line |

## Left out

- Page rendering: CSS, the sidebar navigation, headings, images and `st.markdown` output,
  including how the chat history is displayed. None of it affects the logic modelled.
- Loading the joblib models and the images. The scaler and the classifiers are opaque
  pre-trained artifacts and appear as function parameters of `Risk.Classify`.
- The internals of `StandardScaler` and of the classifiers: what they predict is not part
  of this model.
- The `%.1f` formatting of the probability and of the BMI. The model keeps the exact value
  that is formatted.
- Floating-point arithmetic: the index, the unit conversions and the feature vectors are
  exact reals. Rounding near a tier boundary is not modelled.
- Strings.Lower: covers ASCII letters only. Python's `lower()` also maps
  non-ASCII letters, and that is not modelled.
- Chat.ChatSession.Submit: the clearing of the input box on the next run (app.py:219-221)
  and `st.rerun()` are page control flow; the model keeps only the `reset_input` flag the
  submission sets.
- Streamlit's widget bounds are not re-checked by the source. The model states them as
  `HeightInRange`/`WeightInRange` and uses them only where the source relies on them,
  namely that the height is never zero.
