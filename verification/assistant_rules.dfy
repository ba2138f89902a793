/** The assistant's classifier (`processUserInput` in
    src/components/AssistantChat.tsx): the input is lower-cased and checked
    against an ordered table of eleven keyword rules; the first rule one of
    whose keywords is a substring of the lower-cased input supplies the
    reply, and a fixed fallback answers everything else. */
module AssistantRules {
  import opened Common
  import opened Text

  /** What the assistant recognised in the input; each intent has one fixed reply. */
  datatype Intent =
    | Greeting | Track | Resource | Community | Emergency | Profile
    | Wellness | About | Help | Account | Thanks | Fallback

  /** A rule fires when any of its keywords is a substring of the input. */
  datatype Rule = Rule(keywords: seq<string>, intent: Intent)

  /** The rule table, in the order the source tests it. */
  const Rules: seq<Rule> := [
    Rule(["hello", "hi"], Greeting),
    Rule(["track", "tracking"], Track),
    Rule(["resource"], Resource),
    Rule(["community"], Community),
    Rule(["emergency"], Emergency),
    Rule(["profile"], Profile),
    Rule(["wellness"], Wellness),
    Rule(["what is momcare", "about"], About),
    Rule(["help", "guide"], Help),
    Rule(["sign", "login", "account"], Account),
    Rule(["thank"], Thanks)
  ]

  /** Position of each intent in `ReplyTexts`. */
  function IntentIndex(intent: Intent): (r: nat)
    ensures r < 12
  {
    match intent
    case Greeting => 0
    case Track => 1
    case Resource => 2
    case Community => 3
    case Emergency => 4
    case Profile => 5
    case Wellness => 6
    case About => 7
    case Help => 8
    case Account => 9
    case Thanks => 10
    case Fallback => 11
  }

  /** The fixed reply texts, in `IntentIndex` order. */
  const ReplyTexts: seq<string> := [
    "Hello! How can I help you today with your maternal health journey?",
    "You can track various aspects of your and your baby's health in the Tracking section. Would you like me to guide you there?",
    "Our Resources section has articles, videos, and guides on pregnancy, postpartum care, and infant development. Check it out in the main navigation!",
    "Connect with other parents in our Community section. You can join groups, ask questions, and share experiences.",
    "If you're experiencing a medical emergency, please call emergency services immediately. Our Emergency section has guidelines for common maternal and infant emergencies.",
    "You can update your profile information, including your and your baby's details, in the Profile section accessible from the top right menu.",
    "Our Wellness section offers mental health resources, self-care tips, and wellbeing tracking specifically for new mothers.",
    "MomCare is a comprehensive platform designed to support mothers through pregnancy and early parenthood. We offer tracking tools, resources, community support, and personalized guidance for your maternal journey.",
    "I can help you navigate MomCare! Would you like to learn about tracking your baby's growth, finding resources, connecting with other moms, or something else?",
    "You can sign in or create an account by clicking the Sign In button in the top right corner. Having an account allows you to save your tracking data, join community discussions, and personalize your experience.",
    "You're welcome! I'm here to help anytime you need assistance. Is there anything else I can help you with today?",
    "I'm here to help with questions about MomCare, maternal health, baby development, and navigating parenthood. Could you clarify what you're looking for?"
  ]

  /** The reply text of each intent. */
  function Reply(intent: Intent): string {
    ReplyTexts[IntentIndex(intent)]
  }

  /** Some keyword at index `j` or later of `keywords` is a substring of `s`. */
  predicate AnyKeywordFrom(s: string, keywords: seq<string>, j: nat)
    decreases |keywords| - j
  {
    j < |keywords| && (Contains(s, keywords[j]) || AnyKeywordFrom(s, keywords, j + 1))
  }

  /** `rule` fires on the (already lower-cased) text `s`. */
  predicate Fires(rule: Rule, s: string) {
    AnyKeywordFrom(s, rule.keywords, 0)
  }

  lemma {:induction false} AnyKeywordFromMeans(s: string, keywords: seq<string>, j: nat)
    ensures AnyKeywordFrom(s, keywords, j) <==> exists m :: j <= m < |keywords| && Contains(s, keywords[m])
    decreases |keywords| - j
  {
    if j < |keywords| {
      AnyKeywordFromMeans(s, keywords, j + 1);
      if exists m :: j <= m < |keywords| && Contains(s, keywords[m]) {
        var m :| j <= m < |keywords| && Contains(s, keywords[m]);
        if m > j {
          assert j + 1 <= m < |keywords| && Contains(s, keywords[m]);
        }
      }
    }
  }

  /** A rule fires exactly when one of its keywords is a substring of the text. */
  lemma FiresMeans(rule: Rule, s: string)
    ensures Fires(rule, s) <==> exists m :: 0 <= m < |rule.keywords| && Contains(s, rule.keywords[m])
  {
    AnyKeywordFromMeans(s, rule.keywords, 0);
  }

  /** The index of the first rule at or after `i` that fires on `s`. */
  function FirstFiring(rules: seq<Rule>, s: string, i: nat): (r: Option<nat>)
    ensures r.Some? ==> i <= r.value < |rules| && Fires(rules[r.value], s)
    ensures r.Some? ==> forall k :: i <= k < r.value ==> !Fires(rules[k], s)
    ensures r.None? ==> forall k :: i <= k < |rules| ==> !Fires(rules[k], s)
    decreases |rules| - i
  {
    if i >= |rules| then None
    else if Fires(rules[i], s) then Some(i)
    else FirstFiring(rules, s, i + 1)
  }

  /** The intent recognised in `input`: that of the first rule firing on
      the lower-cased input, or `Fallback` when none does. */
  function Recognise(input: string): (r: Intent)
    ensures r == Fallback <==> forall k :: 0 <= k < |Rules| ==> !Fires(Rules[k], Lower(input))
    ensures r != Fallback ==> exists k :: 0 <= k < |Rules| && Rules[k].intent == r
  {
    match FirstFiring(Rules, Lower(input), 0)
    case Some(k) => Rules[k].intent
    case None => Fallback
  }

  /** `processUserInput`: the reply the assistant gives to `input`. */
  function Classify(input: string): (r: string)
    ensures exists i: Intent :: r == Reply(i)
  {
    Reply(Recognise(input))
  }

  /** Different intents have different replies, so the twelve possible
      replies are pairwise distinct. */
  lemma ReplyInjective(a: Intent, b: Intent)
    ensures Reply(a) == Reply(b) ==> a == b
  {
    assert forall i, j :: 0 <= i < j < |ReplyTexts| ==> ReplyTexts[i] != ReplyTexts[j];
  }

  /** The intents of the rule table are pairwise distinct and none is `Fallback`. */
  lemma RuleIntentsDistinct()
    ensures forall k :: 0 <= k < |Rules| ==> Rules[k].intent != Fallback
    ensures forall k, m :: 0 <= k < m < |Rules| ==> Rules[k].intent != Rules[m].intent
  {
  }

  /** First match wins: the reply is rule `k`'s exactly when rule `k` fires
      on the lower-cased input and no earlier rule does. */
  lemma FirstMatchWins(input: string, k: nat)
    requires k < |Rules|
    ensures Classify(input) == Reply(Rules[k].intent)
        <==> Fires(Rules[k], Lower(input)) && forall m :: 0 <= m < k ==> !Fires(Rules[m], Lower(input))
  {
    RuleIntentsDistinct();
    ReplyInjective(Recognise(input), Rules[k].intent);
    var l := Lower(input);
    match FirstFiring(Rules, l, 0)
    case None =>
    case Some(f) =>
      if f < k {
        assert Rules[f].intent != Rules[k].intent;
      } else if f > k {
        assert Rules[k].intent != Rules[f].intent;
      }
  }

  /** The fallback is given exactly when no keyword of any rule is a
      substring of the lower-cased input. */
  lemma FallbackIffNoKeyword(input: string)
    ensures Classify(input) == Reply(Fallback)
        <==> forall k, j :: 0 <= k < |Rules| && 0 <= j < |Rules[k].keywords| ==> !Contains(Lower(input), Rules[k].keywords[j])
  {
    ReplyInjective(Recognise(input), Fallback);
    forall k | 0 <= k < |Rules| {
      FiresMeans(Rules[k], Lower(input));
    }
  }

  /** Any input containing "hello" or "hi", whatever else it contains,
      gets the greeting. */
  lemma GreetingTakesPrecedence(input: string)
    requires Contains(Lower(input), "hello") || Contains(Lower(input), "hi")
    ensures Classify(input) == Reply(Greeting)
  {
  }

  /** Classification ignores case (on the ASCII range). */
  lemma CaseInsensitive(input: string)
    ensures Classify(input) == Classify(Lower(input))
  {
    LowerIdempotent(input);
  }

  /** The second keyword of the tracking rule is redundant: the rule fires
      exactly when "track" is a substring. */
  lemma TrackingKeywordRedundant(s: string)
    ensures Fires(Rules[1], s) <==> Contains(s, "track")
  {
    if Contains(s, "tracking") {
      assert OccursAt("tracking", "track", 0);
      ContainsAt("tracking", "track", 0);
      ContainsTransitive(s, "tracking", "track");
    }
  }

  /** The tracking reply is given exactly when the greeting rule does not
      fire and the lower-cased input contains "track". */
  lemma TrackReplyIff(input: string)
    ensures Classify(input) == Reply(Track)
        <==> !Fires(Rules[0], Lower(input)) && Contains(Lower(input), "track")
  {
    FirstMatchWins(input, 1);
    TrackingKeywordRedundant(Lower(input));
  }

  /** Each keyword of each rule, entered on its own, selects that rule:
      no keyword is shadowed by an earlier rule. */
  lemma EveryKeywordSelectsItsRule()
    ensures forall k, j :: 0 <= k < |Rules| && 0 <= j < |Rules[k].keywords| ==> Classify(Rules[k].keywords[j]) == Reply(Rules[k].intent)
  {
    forall k, j | 0 <= k < |Rules| && 0 <= j < |Rules[k].keywords|
      ensures Classify(Rules[k].keywords[j]) == Reply(Rules[k].intent)
    {
      KeywordSelectsItsRule(k, j);
    }
  }

  /** Keyword `j` of rule `k`, entered on its own, selects rule `k`. */
  lemma KeywordSelectsItsRule(k: nat, j: nat)
    requires k < |Rules| && j < |Rules[k].keywords|
    ensures Classify(Rules[k].keywords[j]) == Reply(Rules[k].intent)
  {
    var w := Rules[k].keywords[j];
    LowerFixesLowercase(w);
    ContainsSelf(w);
    assert Fires(Rules[k], w) by {
      FiresMeans(Rules[k], w);
    }
    forall m | 0 <= m < k ensures !Fires(Rules[m], w) {
      NotShadowed(k, j, m);
    }
    FirstMatchWins(w, k);
  }

  /** No keyword of rule `k` contains a keyword of an earlier rule. */
  lemma NotShadowed(k: nat, j: nat, m: nat)
    requires m < k < |Rules| && j < |Rules[k].keywords|
    ensures !Fires(Rules[m], Rules[k].keywords[j])
  {
    var w := Rules[k].keywords[j];
    if k == 1 && j == 0 {
      Rule1Keyword0Unshadowed();
    } else if k == 1 && j == 1 {
      Rule1Keyword1Unshadowed();
    } else if k == 2 && j == 0 {
      Rule2Keyword0Unshadowed();
    } else if k == 3 && j == 0 {
      Rule3Keyword0Unshadowed();
    } else if k == 4 && j == 0 {
      Rule4Keyword0Unshadowed();
    } else if k == 5 && j == 0 {
      Rule5Keyword0Unshadowed();
    } else if k == 6 && j == 0 {
      Rule6Keyword0Unshadowed();
    } else if k == 7 && j == 0 {
      Rule7Keyword0Unshadowed();
    } else if k == 7 && j == 1 {
      Rule7Keyword1Unshadowed();
    } else if k == 8 && j == 0 {
      Rule8Keyword0Unshadowed();
    } else if k == 8 && j == 1 {
      Rule8Keyword1Unshadowed();
    } else if k == 9 && j == 0 {
      Rule9Keyword0Unshadowed();
    } else if k == 9 && j == 1 {
      Rule9Keyword1Unshadowed();
    } else if k == 9 && j == 2 {
      Rule9Keyword2Unshadowed();
    } else if k == 10 && j == 0 {
      Rule10Keyword0Unshadowed();
    }
  }

  lemma Rule1Keyword0Unshadowed()
    ensures forall m :: 0 <= m < 1 ==> !Fires(Rules[m], "track")
  {
    assert Rules[0].keywords == ["hello", "hi"];
    assert !AnyKeywordFrom("track", ["hello", "hi"], 0) by { assert !ContainsFrom("track", "hello", 0); assert !ContainsFrom("track", "hi", 0); }
  }

  lemma Rule1Keyword1Unshadowed()
    ensures forall m :: 0 <= m < 1 ==> !Fires(Rules[m], "tracking")
  {
    assert Rules[0].keywords == ["hello", "hi"];
    assert !AnyKeywordFrom("tracking", ["hello", "hi"], 0) by { assert !ContainsFrom("tracking", "hello", 0); assert !ContainsFrom("tracking", "hi", 0); }
  }

  lemma Rule2Keyword0Unshadowed()
    ensures forall m :: 0 <= m < 2 ==> !Fires(Rules[m], "resource")
  {
    assert Rules[0].keywords == ["hello", "hi"];
    assert !AnyKeywordFrom("resource", ["hello", "hi"], 0) by { assert !ContainsFrom("resource", "hello", 0); assert !ContainsFrom("resource", "hi", 0); }
    assert Rules[1].keywords == ["track", "tracking"];
    assert !AnyKeywordFrom("resource", ["track", "tracking"], 0) by { assert !ContainsFrom("resource", "track", 0); assert !ContainsFrom("resource", "tracking", 0); }
  }

  lemma Rule3Keyword0Unshadowed()
    ensures forall m :: 0 <= m < 3 ==> !Fires(Rules[m], "community")
  {
    assert Rules[0].keywords == ["hello", "hi"];
    assert !AnyKeywordFrom("community", ["hello", "hi"], 0) by { assert !ContainsFrom("community", "hello", 0); assert !ContainsFrom("community", "hi", 0); }
    assert Rules[1].keywords == ["track", "tracking"];
    assert !AnyKeywordFrom("community", ["track", "tracking"], 0) by { assert !ContainsFrom("community", "track", 0); assert !ContainsFrom("community", "tracking", 0); }
    assert Rules[2].keywords == ["resource"];
    assert !AnyKeywordFrom("community", ["resource"], 0) by { assert !ContainsFrom("community", "resource", 0); }
  }

  lemma Rule4Keyword0Unshadowed()
    ensures forall m :: 0 <= m < 4 ==> !Fires(Rules[m], "emergency")
  {
    assert Rules[0].keywords == ["hello", "hi"];
    assert !AnyKeywordFrom("emergency", ["hello", "hi"], 0) by { assert !ContainsFrom("emergency", "hello", 0); assert !ContainsFrom("emergency", "hi", 0); }
    assert Rules[1].keywords == ["track", "tracking"];
    assert !AnyKeywordFrom("emergency", ["track", "tracking"], 0) by { assert !ContainsFrom("emergency", "track", 0); assert !ContainsFrom("emergency", "tracking", 0); }
    assert Rules[2].keywords == ["resource"];
    assert !AnyKeywordFrom("emergency", ["resource"], 0) by { assert !ContainsFrom("emergency", "resource", 0); }
    assert Rules[3].keywords == ["community"];
    assert !AnyKeywordFrom("emergency", ["community"], 0) by { assert !ContainsFrom("emergency", "community", 0); }
  }

  lemma Rule5Keyword0Unshadowed()
    ensures forall m :: 0 <= m < 5 ==> !Fires(Rules[m], "profile")
  {
    assert Rules[0].keywords == ["hello", "hi"];
    assert !AnyKeywordFrom("profile", ["hello", "hi"], 0) by { assert !ContainsFrom("profile", "hello", 0); assert !ContainsFrom("profile", "hi", 0); }
    assert Rules[1].keywords == ["track", "tracking"];
    assert !AnyKeywordFrom("profile", ["track", "tracking"], 0) by { assert !ContainsFrom("profile", "track", 0); assert !ContainsFrom("profile", "tracking", 0); }
    assert Rules[2].keywords == ["resource"];
    assert !AnyKeywordFrom("profile", ["resource"], 0) by { assert !ContainsFrom("profile", "resource", 0); }
    assert Rules[3].keywords == ["community"];
    assert !AnyKeywordFrom("profile", ["community"], 0) by { assert !ContainsFrom("profile", "community", 0); }
    assert Rules[4].keywords == ["emergency"];
    assert !AnyKeywordFrom("profile", ["emergency"], 0) by { assert !ContainsFrom("profile", "emergency", 0); }
  }

  lemma Rule6Keyword0Unshadowed()
    ensures forall m :: 0 <= m < 6 ==> !Fires(Rules[m], "wellness")
  {
    assert Rules[0].keywords == ["hello", "hi"];
    assert !AnyKeywordFrom("wellness", ["hello", "hi"], 0) by { assert !ContainsFrom("wellness", "hello", 0); assert !ContainsFrom("wellness", "hi", 0); }
    assert Rules[1].keywords == ["track", "tracking"];
    assert !AnyKeywordFrom("wellness", ["track", "tracking"], 0) by { assert !ContainsFrom("wellness", "track", 0); assert !ContainsFrom("wellness", "tracking", 0); }
    assert Rules[2].keywords == ["resource"];
    assert !AnyKeywordFrom("wellness", ["resource"], 0) by { assert !ContainsFrom("wellness", "resource", 0); }
    assert Rules[3].keywords == ["community"];
    assert !AnyKeywordFrom("wellness", ["community"], 0) by { assert !ContainsFrom("wellness", "community", 0); }
    assert Rules[4].keywords == ["emergency"];
    assert !AnyKeywordFrom("wellness", ["emergency"], 0) by { assert !ContainsFrom("wellness", "emergency", 0); }
    assert Rules[5].keywords == ["profile"];
    assert !AnyKeywordFrom("wellness", ["profile"], 0) by { assert !ContainsFrom("wellness", "profile", 0); }
  }

  lemma Rule7Keyword0Unshadowed()
    ensures forall m :: 0 <= m < 7 ==> !Fires(Rules[m], "what is momcare")
  {
    WhatIsMomcareEarlyRules();
    WhatIsMomcareLateRules();
  }

  lemma WhatIsMomcareEarlyRules()
    ensures forall m :: 0 <= m < 3 ==> !Fires(Rules[m], "what is momcare")
  {
    assert Rules[0].keywords == ["hello", "hi"];
    assert !AnyKeywordFrom("what is momcare", ["hello", "hi"], 0) by { MissingCharNotContained("what is momcare", "hello", 2); NoHiInWhatIsMomcare(); }
    assert Rules[1].keywords == ["track", "tracking"];
    assert !AnyKeywordFrom("what is momcare", ["track", "tracking"], 0) by { MissingCharNotContained("what is momcare", "track", 4); MissingCharNotContained("what is momcare", "tracking", 4); }
    assert Rules[2].keywords == ["resource"];
    assert !AnyKeywordFrom("what is momcare", ["resource"], 0) by { MissingCharNotContained("what is momcare", "resource", 4); }
  }

  lemma WhatIsMomcareLateRules()
    ensures forall m :: 3 <= m < 7 ==> !Fires(Rules[m], "what is momcare")
  {
    assert Rules[3].keywords == ["community"];
    assert !AnyKeywordFrom("what is momcare", ["community"], 0) by { MissingCharNotContained("what is momcare", "community", 4); }
    assert Rules[4].keywords == ["emergency"];
    assert !AnyKeywordFrom("what is momcare", ["emergency"], 0) by { MissingCharNotContained("what is momcare", "emergency", 4); }
    assert Rules[5].keywords == ["profile"];
    assert !AnyKeywordFrom("what is momcare", ["profile"], 0) by { MissingCharNotContained("what is momcare", "profile", 0); }
    assert Rules[6].keywords == ["wellness"];
    assert !AnyKeywordFrom("what is momcare", ["wellness"], 0) by { MissingCharNotContained("what is momcare", "wellness", 2); }
  }

  lemma Rule7Keyword1Unshadowed()
    ensures forall m :: 0 <= m < 7 ==> !Fires(Rules[m], "about")
  {
    assert Rules[0].keywords == ["hello", "hi"];
    assert !AnyKeywordFrom("about", ["hello", "hi"], 0) by { assert !ContainsFrom("about", "hello", 0); assert !ContainsFrom("about", "hi", 0); }
    assert Rules[1].keywords == ["track", "tracking"];
    assert !AnyKeywordFrom("about", ["track", "tracking"], 0) by { assert !ContainsFrom("about", "track", 0); assert !ContainsFrom("about", "tracking", 0); }
    assert Rules[2].keywords == ["resource"];
    assert !AnyKeywordFrom("about", ["resource"], 0) by { assert !ContainsFrom("about", "resource", 0); }
    assert Rules[3].keywords == ["community"];
    assert !AnyKeywordFrom("about", ["community"], 0) by { assert !ContainsFrom("about", "community", 0); }
    assert Rules[4].keywords == ["emergency"];
    assert !AnyKeywordFrom("about", ["emergency"], 0) by { assert !ContainsFrom("about", "emergency", 0); }
    assert Rules[5].keywords == ["profile"];
    assert !AnyKeywordFrom("about", ["profile"], 0) by { assert !ContainsFrom("about", "profile", 0); }
    assert Rules[6].keywords == ["wellness"];
    assert !AnyKeywordFrom("about", ["wellness"], 0) by { assert !ContainsFrom("about", "wellness", 0); }
  }

  lemma Rule8Keyword0Unshadowed()
    ensures forall m :: 0 <= m < 8 ==> !Fires(Rules[m], "help")
  {
    assert Rules[0].keywords == ["hello", "hi"];
    assert !AnyKeywordFrom("help", ["hello", "hi"], 0) by { assert !ContainsFrom("help", "hello", 0); assert !ContainsFrom("help", "hi", 0); }
    assert Rules[1].keywords == ["track", "tracking"];
    assert !AnyKeywordFrom("help", ["track", "tracking"], 0) by { assert !ContainsFrom("help", "track", 0); assert !ContainsFrom("help", "tracking", 0); }
    assert Rules[2].keywords == ["resource"];
    assert !AnyKeywordFrom("help", ["resource"], 0) by { assert !ContainsFrom("help", "resource", 0); }
    assert Rules[3].keywords == ["community"];
    assert !AnyKeywordFrom("help", ["community"], 0) by { assert !ContainsFrom("help", "community", 0); }
    assert Rules[4].keywords == ["emergency"];
    assert !AnyKeywordFrom("help", ["emergency"], 0) by { assert !ContainsFrom("help", "emergency", 0); }
    assert Rules[5].keywords == ["profile"];
    assert !AnyKeywordFrom("help", ["profile"], 0) by { assert !ContainsFrom("help", "profile", 0); }
    assert Rules[6].keywords == ["wellness"];
    assert !AnyKeywordFrom("help", ["wellness"], 0) by { assert !ContainsFrom("help", "wellness", 0); }
    assert Rules[7].keywords == ["what is momcare", "about"];
    assert !AnyKeywordFrom("help", ["what is momcare", "about"], 0) by { assert !ContainsFrom("help", "what is momcare", 0); assert !ContainsFrom("help", "about", 0); }
  }

  lemma Rule8Keyword1Unshadowed()
    ensures forall m :: 0 <= m < 8 ==> !Fires(Rules[m], "guide")
  {
    assert Rules[0].keywords == ["hello", "hi"];
    assert !AnyKeywordFrom("guide", ["hello", "hi"], 0) by { assert !ContainsFrom("guide", "hello", 0); assert !ContainsFrom("guide", "hi", 0); }
    assert Rules[1].keywords == ["track", "tracking"];
    assert !AnyKeywordFrom("guide", ["track", "tracking"], 0) by { assert !ContainsFrom("guide", "track", 0); assert !ContainsFrom("guide", "tracking", 0); }
    assert Rules[2].keywords == ["resource"];
    assert !AnyKeywordFrom("guide", ["resource"], 0) by { assert !ContainsFrom("guide", "resource", 0); }
    assert Rules[3].keywords == ["community"];
    assert !AnyKeywordFrom("guide", ["community"], 0) by { assert !ContainsFrom("guide", "community", 0); }
    assert Rules[4].keywords == ["emergency"];
    assert !AnyKeywordFrom("guide", ["emergency"], 0) by { assert !ContainsFrom("guide", "emergency", 0); }
    assert Rules[5].keywords == ["profile"];
    assert !AnyKeywordFrom("guide", ["profile"], 0) by { assert !ContainsFrom("guide", "profile", 0); }
    assert Rules[6].keywords == ["wellness"];
    assert !AnyKeywordFrom("guide", ["wellness"], 0) by { assert !ContainsFrom("guide", "wellness", 0); }
    assert Rules[7].keywords == ["what is momcare", "about"];
    assert !AnyKeywordFrom("guide", ["what is momcare", "about"], 0) by { assert !ContainsFrom("guide", "what is momcare", 0); assert !ContainsFrom("guide", "about", 0); }
  }

  lemma Rule9Keyword0Unshadowed()
    ensures forall m :: 0 <= m < 9 ==> !Fires(Rules[m], "sign")
  {
    assert Rules[0].keywords == ["hello", "hi"];
    assert !AnyKeywordFrom("sign", ["hello", "hi"], 0) by { assert !ContainsFrom("sign", "hello", 0); assert !ContainsFrom("sign", "hi", 0); }
    assert Rules[1].keywords == ["track", "tracking"];
    assert !AnyKeywordFrom("sign", ["track", "tracking"], 0) by { assert !ContainsFrom("sign", "track", 0); assert !ContainsFrom("sign", "tracking", 0); }
    assert Rules[2].keywords == ["resource"];
    assert !AnyKeywordFrom("sign", ["resource"], 0) by { assert !ContainsFrom("sign", "resource", 0); }
    assert Rules[3].keywords == ["community"];
    assert !AnyKeywordFrom("sign", ["community"], 0) by { assert !ContainsFrom("sign", "community", 0); }
    assert Rules[4].keywords == ["emergency"];
    assert !AnyKeywordFrom("sign", ["emergency"], 0) by { assert !ContainsFrom("sign", "emergency", 0); }
    assert Rules[5].keywords == ["profile"];
    assert !AnyKeywordFrom("sign", ["profile"], 0) by { assert !ContainsFrom("sign", "profile", 0); }
    assert Rules[6].keywords == ["wellness"];
    assert !AnyKeywordFrom("sign", ["wellness"], 0) by { assert !ContainsFrom("sign", "wellness", 0); }
    assert Rules[7].keywords == ["what is momcare", "about"];
    assert !AnyKeywordFrom("sign", ["what is momcare", "about"], 0) by { assert !ContainsFrom("sign", "what is momcare", 0); assert !ContainsFrom("sign", "about", 0); }
    assert Rules[8].keywords == ["help", "guide"];
    assert !AnyKeywordFrom("sign", ["help", "guide"], 0) by { assert !ContainsFrom("sign", "help", 0); assert !ContainsFrom("sign", "guide", 0); }
  }

  lemma Rule9Keyword1Unshadowed()
    ensures forall m :: 0 <= m < 9 ==> !Fires(Rules[m], "login")
  {
    assert Rules[0].keywords == ["hello", "hi"];
    assert !AnyKeywordFrom("login", ["hello", "hi"], 0) by { assert !ContainsFrom("login", "hello", 0); assert !ContainsFrom("login", "hi", 0); }
    assert Rules[1].keywords == ["track", "tracking"];
    assert !AnyKeywordFrom("login", ["track", "tracking"], 0) by { assert !ContainsFrom("login", "track", 0); assert !ContainsFrom("login", "tracking", 0); }
    assert Rules[2].keywords == ["resource"];
    assert !AnyKeywordFrom("login", ["resource"], 0) by { assert !ContainsFrom("login", "resource", 0); }
    assert Rules[3].keywords == ["community"];
    assert !AnyKeywordFrom("login", ["community"], 0) by { assert !ContainsFrom("login", "community", 0); }
    assert Rules[4].keywords == ["emergency"];
    assert !AnyKeywordFrom("login", ["emergency"], 0) by { assert !ContainsFrom("login", "emergency", 0); }
    assert Rules[5].keywords == ["profile"];
    assert !AnyKeywordFrom("login", ["profile"], 0) by { assert !ContainsFrom("login", "profile", 0); }
    assert Rules[6].keywords == ["wellness"];
    assert !AnyKeywordFrom("login", ["wellness"], 0) by { assert !ContainsFrom("login", "wellness", 0); }
    assert Rules[7].keywords == ["what is momcare", "about"];
    assert !AnyKeywordFrom("login", ["what is momcare", "about"], 0) by { assert !ContainsFrom("login", "what is momcare", 0); assert !ContainsFrom("login", "about", 0); }
    assert Rules[8].keywords == ["help", "guide"];
    assert !AnyKeywordFrom("login", ["help", "guide"], 0) by { assert !ContainsFrom("login", "help", 0); assert !ContainsFrom("login", "guide", 0); }
  }

  lemma Rule9Keyword2Unshadowed()
    ensures forall m :: 0 <= m < 9 ==> !Fires(Rules[m], "account")
  {
    assert Rules[0].keywords == ["hello", "hi"];
    assert !AnyKeywordFrom("account", ["hello", "hi"], 0) by { assert !ContainsFrom("account", "hello", 0); assert !ContainsFrom("account", "hi", 0); }
    assert Rules[1].keywords == ["track", "tracking"];
    assert !AnyKeywordFrom("account", ["track", "tracking"], 0) by { assert !ContainsFrom("account", "track", 0); assert !ContainsFrom("account", "tracking", 0); }
    assert Rules[2].keywords == ["resource"];
    assert !AnyKeywordFrom("account", ["resource"], 0) by { assert !ContainsFrom("account", "resource", 0); }
    assert Rules[3].keywords == ["community"];
    assert !AnyKeywordFrom("account", ["community"], 0) by { assert !ContainsFrom("account", "community", 0); }
    assert Rules[4].keywords == ["emergency"];
    assert !AnyKeywordFrom("account", ["emergency"], 0) by { assert !ContainsFrom("account", "emergency", 0); }
    assert Rules[5].keywords == ["profile"];
    assert !AnyKeywordFrom("account", ["profile"], 0) by { assert !ContainsFrom("account", "profile", 0); }
    assert Rules[6].keywords == ["wellness"];
    assert !AnyKeywordFrom("account", ["wellness"], 0) by { assert !ContainsFrom("account", "wellness", 0); }
    assert Rules[7].keywords == ["what is momcare", "about"];
    assert !AnyKeywordFrom("account", ["what is momcare", "about"], 0) by { assert !ContainsFrom("account", "what is momcare", 0); assert !ContainsFrom("account", "about", 0); }
    assert Rules[8].keywords == ["help", "guide"];
    assert !AnyKeywordFrom("account", ["help", "guide"], 0) by { assert !ContainsFrom("account", "help", 0); assert !ContainsFrom("account", "guide", 0); }
  }

  lemma Rule10Keyword0Unshadowed()
    ensures forall m :: 0 <= m < 10 ==> !Fires(Rules[m], "thank")
  {
    assert Rules[0].keywords == ["hello", "hi"];
    assert !AnyKeywordFrom("thank", ["hello", "hi"], 0) by { assert !ContainsFrom("thank", "hello", 0); assert !ContainsFrom("thank", "hi", 0); }
    assert Rules[1].keywords == ["track", "tracking"];
    assert !AnyKeywordFrom("thank", ["track", "tracking"], 0) by { assert !ContainsFrom("thank", "track", 0); assert !ContainsFrom("thank", "tracking", 0); }
    assert Rules[2].keywords == ["resource"];
    assert !AnyKeywordFrom("thank", ["resource"], 0) by { assert !ContainsFrom("thank", "resource", 0); }
    assert Rules[3].keywords == ["community"];
    assert !AnyKeywordFrom("thank", ["community"], 0) by { assert !ContainsFrom("thank", "community", 0); }
    assert Rules[4].keywords == ["emergency"];
    assert !AnyKeywordFrom("thank", ["emergency"], 0) by { assert !ContainsFrom("thank", "emergency", 0); }
    assert Rules[5].keywords == ["profile"];
    assert !AnyKeywordFrom("thank", ["profile"], 0) by { assert !ContainsFrom("thank", "profile", 0); }
    assert Rules[6].keywords == ["wellness"];
    assert !AnyKeywordFrom("thank", ["wellness"], 0) by { assert !ContainsFrom("thank", "wellness", 0); }
    assert Rules[7].keywords == ["what is momcare", "about"];
    assert !AnyKeywordFrom("thank", ["what is momcare", "about"], 0) by { assert !ContainsFrom("thank", "what is momcare", 0); assert !ContainsFrom("thank", "about", 0); }
    assert Rules[8].keywords == ["help", "guide"];
    assert !AnyKeywordFrom("thank", ["help", "guide"], 0) by { assert !ContainsFrom("thank", "help", 0); assert !ContainsFrom("thank", "guide", 0); }
    assert Rules[9].keywords == ["sign", "login", "account"];
    assert !AnyKeywordFrom("thank", ["sign", "login", "account"], 0) by { assert !ContainsFrom("thank", "sign", 0); assert !ContainsFrom("thank", "login", 0); assert !ContainsFrom("thank", "account", 0); }
  }
  lemma NoHiInWhatIsMomcare()
    ensures !Contains("what is momcare", "hi")
  {
    assert !ContainsFrom("what is momcare", "hi", 13);
    assert !ContainsFrom("what is momcare", "hi", 12);
    assert !ContainsFrom("what is momcare", "hi", 11);
    assert !ContainsFrom("what is momcare", "hi", 10);
    assert !ContainsFrom("what is momcare", "hi", 9);
    assert !ContainsFrom("what is momcare", "hi", 8);
    assert !ContainsFrom("what is momcare", "hi", 7);
    assert !ContainsFrom("what is momcare", "hi", 6);
    assert !ContainsFrom("what is momcare", "hi", 5);
    assert !ContainsFrom("what is momcare", "hi", 4);
    assert !ContainsFrom("what is momcare", "hi", 3);
    assert !ContainsFrom("what is momcare", "hi", 2);
    assert !ContainsFrom("what is momcare", "hi", 1);
    assert !ContainsFrom("what is momcare", "hi", 0);
  }

  /** The keyword "hi" is matched inside words: a message about an
      emergency that contains "this" is answered with the greeting. */
  lemma HiMatchesInsideWords()
    ensures Classify("is this an emergency") == Reply(Greeting)
  {
    var w := "is this an emergency";
    LowerFixesLowercase(w);
    assert OccursAt(w, "hi", 4);
    ContainsAt(w, "hi", 4);
  }

  /** Upper-case keywords are recognised. */
  lemma UpperCaseGreeting()
    ensures Classify("HELLO") == Reply(Greeting)
  {
    assert Lower("HELLO") == "hello";
    assert OccursAt("hello", "hello", 0);
    ContainsAt("hello", "hello", 0);
  }
}
