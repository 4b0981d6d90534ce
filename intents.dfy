/**
 * The assistant's keyword classifier: a normalized input is mapped to one of
 * eight canned replies by testing substring containment of fixed keywords,
 * first matching rule first.
 */
module Intents {
  import opened Text

  const HowBuiltReply := "This portfolio was built using React, Next.js, and Tailwind CSS. The smooth animations are powered by Framer Motion, and the 3D-style interactions use standard CSS transforms!"
  const SkillsReply := "My technical stack includes: JavaScript (ES6+), React.js, Next.js, Node.js, MongoDB, Three.js, and Tailwind CSS. I also have experience with Python and Flask."
  const ContactReply := "I'd love to hear from you! You can reach me at: connectwithfarzaana@gmail.com"
  const ExperienceReply := "I am currently a MERN Stack Developer at Zephyr Technologies (since Jan 2024). I specialize in building scalable web applications and mentoring students."
  const ProjectsReply := "Some of my key projects include an E-Commerce Dashboard, the Skillzep educational platform, and the Samaa Wallet app. You can see details in the 'My Work' section!"
  const GreetingReply := "Hi there! Feel free to ask me anything about my work as a developer."
  const IdentityReply := "I am an AI assistant representing Khadeejath Farzana A, a Creative Developer from Sampaje."
  const FallbackReply := "I'm not sure about that one yet! Try asking about my 'skills', 'projects', or 'how this site was made'."

  /** Every text the classifier can answer with, in rule order. */
  const Replies: seq<string> :=
    [HowBuiltReply, SkillsReply, ContactReply, ExperienceReply,
     ProjectsReply, GreetingReply, IdentityReply, FallbackReply]

  /** The reply chain exactly as the terminal evaluates it on the normalized input. */
  function Respond(lower: string): string
  {
    if Contains(lower, "how") && (Contains(lower, "portfolio") || Contains(lower, "site") || Contains(lower, "made") || Contains(lower, "built")) then
      HowBuiltReply
    else if Contains(lower, "language") || Contains(lower, "skill") || Contains(lower, "stack") || Contains(lower, "tech") then
      SkillsReply
    else if Contains(lower, "contact") || Contains(lower, "email") || Contains(lower, "reach") || Contains(lower, "hire") then
      ContactReply
    else if Contains(lower, "experience") || Contains(lower, "work") || Contains(lower, "job") || Contains(lower, "company") then
      ExperienceReply
    else if Contains(lower, "project") || Contains(lower, "app") then
      ProjectsReply
    else if Contains(lower, "hello") || Contains(lower, "hi") || Contains(lower, "hey") then
      GreetingReply
    else if Contains(lower, "who are you") || Contains(lower, "your name") then
      IdentityReply
    else
      FallbackReply
  }

  /** The reply for raw terminal input: matching happens on `input.trim().toLowerCase()`. */
  function Classify(raw: string): string {
    Respond(Normalize(raw))
  }

  /** Every input, normalized or raw, is answered with one of the eight non-empty replies. */
  lemma RespondInReplies(lower: string, raw: string)
    ensures Respond(lower) in Replies && |Respond(lower)| > 0
    ensures Classify(raw) in Replies && |Classify(raw)| > 0
  {
    RespondIsOneOf(lower);
    RespondIsOneOf(Normalize(raw));
  }

  lemma RespondIsOneOf(lower: string)
    ensures Respond(lower) in Replies && |Respond(lower)| > 0
  {
    var r := Respond(lower);
    assert r == Replies[0] || r == Replies[1] || r == Replies[2] || r == Replies[3] ||
           r == Replies[4] || r == Replies[5] || r == Replies[6] || r == Replies[7];
  }

  /** The eight replies are pairwise different, so which rule fired can be read off the reply. */
  lemma RepliesDistinct()
    ensures forall i, j :: 0 <= i < j < |Replies| ==> Replies[i] != Replies[j]
  {
    assert HowBuiltReply != SkillsReply && HowBuiltReply != ContactReply && HowBuiltReply != ExperienceReply && HowBuiltReply != ProjectsReply;
    assert HowBuiltReply != GreetingReply && HowBuiltReply != IdentityReply && HowBuiltReply != FallbackReply;
    assert SkillsReply != ContactReply && SkillsReply != ExperienceReply && SkillsReply != ProjectsReply;
    assert SkillsReply != GreetingReply && SkillsReply != IdentityReply && SkillsReply != FallbackReply;
    assert ContactReply != ExperienceReply && ContactReply != ProjectsReply && ContactReply != GreetingReply;
    assert ContactReply != IdentityReply && ContactReply != FallbackReply;
    assert ExperienceReply != ProjectsReply && ExperienceReply != GreetingReply;
    assert ExperienceReply != IdentityReply && ExperienceReply != FallbackReply;
    assert ProjectsReply != GreetingReply && ProjectsReply != IdentityReply && ProjectsReply != FallbackReply;
    assert GreetingReply != IdentityReply && GreetingReply != FallbackReply;
    assert IdentityReply != FallbackReply;
  }

  // ----- The same classifier as an explicit, ordered rule table -----

  /** When a rule fires: some listed keyword occurs, or both parts fire. */
  datatype Trigger = AnyOf(keywords: seq<string>) | Both(first: Trigger, second: Trigger)

  datatype Rule = Rule(trigger: Trigger, reply: string)

  predicate ContainsAny(lower: string, keywords: seq<string>)
  {
    |keywords| > 0 && (Contains(lower, keywords[0]) || ContainsAny(lower, keywords[1..]))
  }

  predicate Fires(t: Trigger, lower: string)
  {
    match t
    case AnyOf(keywords) => ContainsAny(lower, keywords)
    case Both(first, second) => Fires(first, lower) && Fires(second, lower)
  }

  /** A keyword list fires exactly when one of its keywords occurs in the input. */
  lemma {:induction false} ContainsAnyIff(lower: string, keywords: seq<string>)
    ensures ContainsAny(lower, keywords) <==> exists k :: 0 <= k < |keywords| && Contains(lower, keywords[k])
  {
    if |keywords| > 0 {
      ContainsAnyIff(lower, keywords[1..]);
      if Contains(lower, keywords[0]) {
        assert 0 < |keywords| && Contains(lower, keywords[0]);
      }
      if exists k :: 0 <= k < |keywords| && Contains(lower, keywords[k]) {
        var k :| 0 <= k < |keywords| && Contains(lower, keywords[k]);
        if k > 0 {
          assert keywords[1..][k - 1] == keywords[k];
        }
      }
    }
  }

  lemma ContainsAnyOne(lower: string, a: string)
    ensures ContainsAny(lower, [a]) == Contains(lower, a)
  {
    assert [a][1..] == [];
  }

  lemma ContainsAnyTwo(lower: string, a: string, b: string)
    ensures ContainsAny(lower, [a, b]) == (Contains(lower, a) || Contains(lower, b))
  {
    assert [a, b][1..] == [b];
    ContainsAnyOne(lower, b);
  }

  lemma ContainsAnyThree(lower: string, a: string, b: string, c: string)
    ensures ContainsAny(lower, [a, b, c]) == (Contains(lower, a) || Contains(lower, b) || Contains(lower, c))
  {
    assert [a, b, c][1..] == [b, c];
    ContainsAnyTwo(lower, b, c);
  }

  lemma ContainsAnyFour(lower: string, a: string, b: string, c: string, d: string)
    ensures ContainsAny(lower, [a, b, c, d]) == (Contains(lower, a) || Contains(lower, b) || Contains(lower, c) || Contains(lower, d))
  {
    assert [a, b, c, d][1..] == [b, c, d];
    ContainsAnyThree(lower, b, c, d);
  }

  /** The rules in priority order; the fallback is what remains when none fires. */
  const Rules: seq<Rule> := [
    Rule(Both(AnyOf(["how"]), AnyOf(["portfolio", "site", "made", "built"])), HowBuiltReply),
    Rule(AnyOf(["language", "skill", "stack", "tech"]), SkillsReply),
    Rule(AnyOf(["contact", "email", "reach", "hire"]), ContactReply),
    Rule(AnyOf(["experience", "work", "job", "company"]), ExperienceReply),
    Rule(AnyOf(["project", "app"]), ProjectsReply),
    Rule(AnyOf(["hello", "hi", "hey"]), GreetingReply),
    Rule(AnyOf(["who are you", "your name"]), IdentityReply)
  ]

  /** Generic first-match-wins evaluation of a rule table. */
  function FirstMatch(rules: seq<Rule>, lower: string): string
  {
    if rules == [] then FallbackReply
    else if Fires(rules[0].trigger, lower) then rules[0].reply
    else FirstMatch(rules[1..], lower)
  }

  /** The first rule that fires decides the reply; the rules after it are irrelevant. */
  lemma {:induction false} FirstMatchPicksFirstFiring(rules: seq<Rule>, lower: string, k: nat)
    requires k < |rules| && Fires(rules[k].trigger, lower)
    requires forall j :: 0 <= j < k ==> !Fires(rules[j].trigger, lower)
    ensures FirstMatch(rules, lower) == rules[k].reply
  {
    if k > 0 {
      assert !Fires(rules[0].trigger, lower);
      FirstMatchPicksFirstFiring(rules[1..], lower, k - 1);
    }
  }

  /** When no rule fires the fallback reply is given. */
  lemma {:induction false} FirstMatchFallsBack(rules: seq<Rule>, lower: string)
    requires forall j :: 0 <= j < |rules| ==> !Fires(rules[j].trigger, lower)
    ensures FirstMatch(rules, lower) == FallbackReply
  {
    if rules != [] {
      assert !Fires(rules[0].trigger, lower);
      FirstMatchFallsBack(rules[1..], lower);
    }
  }

  /** The whole reply is determined by the first firing rule of the table, or is the fallback. */
  lemma FirstMatchSpec(rules: seq<Rule>, lower: string)
    ensures (exists k :: 0 <= k < |rules| && Fires(rules[k].trigger, lower)
               && (forall j :: 0 <= j < k ==> !Fires(rules[j].trigger, lower))
               && FirstMatch(rules, lower) == rules[k].reply)
         || ((forall j :: 0 <= j < |rules| ==> !Fires(rules[j].trigger, lower))
               && FirstMatch(rules, lower) == FallbackReply)
  {
    if k :| 0 <= k < |rules| && Fires(rules[k].trigger, lower) {
      var m := FirstFiring(rules, lower, k);
      FirstMatchPicksFirstFiring(rules, lower, m);
    } else {
      FirstMatchFallsBack(rules, lower);
    }
  }

  /** Some firing index at or below k has no firing rule before it. */
  lemma {:induction false} FirstFiring(rules: seq<Rule>, lower: string, k: nat) returns (m: nat)
    requires k < |rules| && Fires(rules[k].trigger, lower)
    ensures m <= k && Fires(rules[m].trigger, lower)
    ensures forall j :: 0 <= j < m ==> !Fires(rules[j].trigger, lower)
    decreases k
  {
    if exists j :: 0 <= j < k && Fires(rules[j].trigger, lower) {
      var j :| 0 <= j < k && Fires(rules[j].trigger, lower);
      m := FirstFiring(rules, lower, j);
    } else {
      m := k;
    }
  }

  /** Each rule of the table fires exactly when the matching condition of the chain holds. */
  lemma RuleConditions(lower: string)
    ensures Fires(Rules[0].trigger, lower) == (Contains(lower, "how") && (Contains(lower, "portfolio") || Contains(lower, "site") || Contains(lower, "made") || Contains(lower, "built")))
    ensures Fires(Rules[1].trigger, lower) == (Contains(lower, "language") || Contains(lower, "skill") || Contains(lower, "stack") || Contains(lower, "tech"))
    ensures Fires(Rules[2].trigger, lower) == (Contains(lower, "contact") || Contains(lower, "email") || Contains(lower, "reach") || Contains(lower, "hire"))
    ensures Fires(Rules[3].trigger, lower) == (Contains(lower, "experience") || Contains(lower, "work") || Contains(lower, "job") || Contains(lower, "company"))
    ensures Fires(Rules[4].trigger, lower) == (Contains(lower, "project") || Contains(lower, "app"))
    ensures Fires(Rules[5].trigger, lower) == (Contains(lower, "hello") || Contains(lower, "hi") || Contains(lower, "hey"))
    ensures Fires(Rules[6].trigger, lower) == (Contains(lower, "who are you") || Contains(lower, "your name"))
  {
    ContainsAnyOne(lower, "how");
    ContainsAnyFour(lower, "portfolio", "site", "made", "built");
    ContainsAnyFour(lower, "language", "skill", "stack", "tech");
    ContainsAnyFour(lower, "contact", "email", "reach", "hire");
    ContainsAnyFour(lower, "experience", "work", "job", "company");
    ContainsAnyTwo(lower, "project", "app");
    ContainsAnyThree(lower, "hello", "hi", "hey");
    ContainsAnyTwo(lower, "who are you", "your name");
  }

  /** The rule table and the reply chain give the same reply on every input. */
  lemma RulesAgreeWithChain(lower: string)
    ensures FirstMatch(Rules, lower) == Respond(lower)
  {
    RuleConditions(lower);
    forall k | 0 <= k < |Rules|
      ensures FirstMatch(Rules[k..], lower) == if Fires(Rules[k].trigger, lower) then Rules[k].reply else FirstMatch(Rules[k + 1..], lower)
    {
      assert Rules[k..][1..] == Rules[k + 1..];
    }
    assert Rules[|Rules|..] == [];
    assert Rules[0..] == Rules;
  }

  /**
   * The chain answers with rule k's reply exactly when rule k is the first rule
   * that fires, and with the fallback exactly when no rule fires.
   */
  lemma RespondIsFirstFiringRule(lower: string)
    ensures forall k :: 0 <= k < |Rules| ==>
      (Respond(lower) == Rules[k].reply <==>
        Fires(Rules[k].trigger, lower) && forall j :: 0 <= j < k ==> !Fires(Rules[j].trigger, lower))
    ensures Respond(lower) == FallbackReply <==> forall j :: 0 <= j < |Rules| ==> !Fires(Rules[j].trigger, lower)
  {
    RulesAgreeWithChain(lower);
    RuleRepliesDistinct();
    FirstMatchIsFirstFiring(Rules, lower);
  }

  /** In a table whose replies are distinct and differ from the fallback, the reply identifies the first firing rule. */
  lemma FirstMatchIsFirstFiring(rules: seq<Rule>, lower: string)
    requires forall i, j :: 0 <= i < j < |rules| ==> rules[i].reply != rules[j].reply
    requires forall i :: 0 <= i < |rules| ==> rules[i].reply != FallbackReply
    ensures forall k :: 0 <= k < |rules| ==>
      (FirstMatch(rules, lower) == rules[k].reply <==>
        Fires(rules[k].trigger, lower) && forall j :: 0 <= j < k ==> !Fires(rules[j].trigger, lower))
    ensures FirstMatch(rules, lower) == FallbackReply <==> forall j :: 0 <= j < |rules| ==> !Fires(rules[j].trigger, lower)
  {
    FirstMatchSpec(rules, lower);
  }

  /** The table's seven replies are pairwise different and none is the fallback. */
  lemma RuleRepliesDistinct()
    ensures forall i, j :: 0 <= i < j < |Rules| ==> Rules[i].reply != Rules[j].reply
    ensures forall i :: 0 <= i < |Rules| ==> Rules[i].reply != FallbackReply
  {
    RepliesDistinct();
    assert forall k :: 0 <= k < |Rules| ==> Rules[k].reply == Replies[k];
  }

  /** Once rule k fires, the reply comes from rule k or an earlier one, whatever else the input holds. */
  lemma FiringBoundsReply(lower: string, k: nat)
    requires k < |Rules| && Fires(Rules[k].trigger, lower)
    ensures Respond(lower) in Replies[..k + 1]
  {
    var m := FirstFiring(Rules, lower, k);
    FirstMatchPicksFirstFiring(Rules, lower, m);
    RulesAgreeWithChain(lower);
    assert Rules[m].reply == Replies[..k + 1][m];
  }

  /** Any input mentioning "hire" is answered by the how-built, skills or contact rule, never by the greeting its "hi" also matches. */
  lemma HireNeverGreets(u: string, v: string)
    ensures Contains(u + "hire" + v, "hi")
    ensures Respond(u + "hire" + v) in [HowBuiltReply, SkillsReply, ContactReply]
  {
    var lower := u + "hire" + v;
    FoundBetween(u, "hi", "re" + v);
    assert lower == u + "hi" + ("re" + v);
    FoundBetween(u, "hire", v);
    RuleConditions(lower);
    FiringBoundsReply(lower, 2);
    RepliesDistinct();
  }

  /** White-space-only input, once trimmed, matches no keyword and gets the fallback. */
  lemma BlankInputFallsBack(raw: string)
    requires AllSpace(raw)
    ensures Classify(raw) == FallbackReply
  {
    TrimEmptyIffBlank(raw);
    assert Normalize(raw) == "";
  }

  // ----- Fixtures: rule order and substring matching on concrete inputs -----

  lemma EmptyInputFallsBack()
    ensures Respond("") == FallbackReply
  {
  }

  /** "how" together with "built" wins over the "stack" keyword of the later skills rule. */
  lemma StackBuiltIsHowBuilt()
    ensures Contains("how is your stack built", "stack")
    ensures Respond("how is your stack built") == HowBuiltReply
  {
    StackBuiltKeywords();
  }

  lemma StackBuiltKeywords()
    ensures Contains("how is your stack built", "how")
    ensures Contains("how is your stack built", "stack")
    ensures Contains("how is your stack built", "built")
  {
    StackBuiltHow();
    StackBuiltStack();
    StackBuiltBuilt();
  }

  lemma StackBuiltHow()
    ensures Contains("how is your stack built", "how")
  {
    FoundBetween("", "how", " is your stack built");
    assert "" + "how" + " is your stack built" == "how is your stack built";
  }

  lemma StackBuiltStack()
    ensures Contains("how is your stack built", "stack")
  {
    FoundBetween("how is your ", "stack", " built");
    assert "how is your " + "stack" + " built" == "how is your stack built";
  }

  lemma StackBuiltBuilt()
    ensures Contains("how is your stack built", "built")
  {
    FoundBetween("how is your stack ", "built", "");
    assert "how is your stack " + "built" + "" == "how is your stack built";
  }

  /** "how" alone does not fire the first rule, so "tech" selects the skills reply. */
  lemma TechStackIsSkills()
    ensures Contains("how is your tech stack", "how")
    ensures Respond("how is your tech stack") == SkillsReply
  {
    var lower := "how is your tech stack";
    FoundBetween("", "how", " is your tech stack");
    assert "" + "how" + " is your tech stack" == lower;
    TechStackLacksPartner();
    FoundBetween("how is your ", "tech", " stack");
    assert "how is your " + "tech" + " stack" == lower;
  }

  /** None of "portfolio", "site", "made", "built" occurs in "how is your tech stack". */
  lemma TechStackLacksPartner()
    ensures !Contains("how is your tech stack", "portfolio") && !Contains("how is your tech stack", "site")
    ensures !Contains("how is your tech stack", "made") && !Contains("how is your tech stack", "built")
  {
    MissingChar("how is your tech stack", "portfolio", 0);
    MissingChar("how is your tech stack", "made", 0);
    MissingChar("how is your tech stack", "built", 0);
    NoSiteInTechStack();
  }

  /** Every 's' of "how is your tech stack" is followed by something other than 'i'. */
  lemma NoSiteInTechStack()
    ensures !Contains("how is your tech stack", "site")
  {
    OccurrenceAfter("how i", "s your tech stack", "site");
    assert "how i" + "s your tech stack" == "how is your tech stack";
    assert !OccursAt("s your tech stack", "site", 0) by { assert "s your tech stack"[0..4][1] != "site"[1]; }
    SkipNonMatch('s', " your tech stack", "site");
    assert ['s'] + " your tech stack" == "s your tech stack";
    OccurrenceAfter(" your tech ", "stack", "site");
    assert " your tech " + "stack" == " your tech stack";
    assert !OccursAt("stack", "site", 0) by { assert "stack"[0..4][1] != "site"[1]; }
    SkipNonMatch('s', "tack", "site");
    assert ['s'] + "tack" == "stack";
    MissingChar("tack", "site", 0);
  }

  /** "how did you build this site" pairs "how" with "site". */
  lemma BuildThisSiteIsHowBuilt()
    ensures Respond("how did you build this site") == HowBuiltReply
  {
    BuildThisSiteKeywords();
  }

  lemma BuildThisSiteKeywords()
    ensures Contains("how did you build this site", "how")
    ensures Contains("how did you build this site", "site")
  {
    FoundBetween("", "how", " did you build this site");
    assert "" + "how" + " did you build this site" == "how did you build this site";
    FoundBetween("how did you build this ", "site", "");
    assert "how did you build this " + "site" + "" == "how did you build this site";
  }

  /** "hire" contains the greeting keyword "hi", but the contact rule comes first. */
  lemma HireIsContact()
    ensures Contains("hire", "hi")
    ensures Respond("hire") == ContactReply
  {
    var lower := "hire";
    FoundBetween("", "hi", "re");
    assert "" + "hi" + "re" == lower;
    MissingChar(lower, "how", 1);
    MissingChar(lower, "language", 0);
    MissingChar(lower, "skill", 0);
    MissingChar(lower, "stack", 0);
    MissingChar(lower, "tech", 0);
    MissingChar(lower, "contact", 0);
    MissingChar(lower, "email", 1);
    MissingChar(lower, "reach", 2);
    FoundBetween("", "hire", "");
    assert "" + "hire" + "" == lower;
  }

  /** "this" is a greeting, because it contains "hi". */
  lemma ThisIsGreeting()
    ensures Respond("this") == GreetingReply
  {
    var lower := "this";
    MissingChar(lower, "how", 1);
    MissingChar(lower, "language", 0);
    MissingChar(lower, "skill", 1);
    MissingChar(lower, "stack", 2);
    MissingChar(lower, "tech", 1);
    MissingChar(lower, "contact", 0);
    MissingChar(lower, "email", 0);
    MissingChar(lower, "reach", 0);
    MissingChar(lower, "hire", 2);
    MissingChar(lower, "experience", 0);
    MissingChar(lower, "work", 1);
    MissingChar(lower, "job", 1);
    MissingChar(lower, "company", 0);
    MissingChar(lower, "project", 0);
    MissingChar(lower, "app", 0);
    MissingChar(lower, "hello", 1);
    FoundBetween("t", "hi", "s");
    assert "t" + "hi" + "s" == lower;
  }

  /** "happy" asks about projects, because it contains "app". */
  lemma HappyIsProjects()
    ensures Respond("happy") == ProjectsReply
  {
    var lower := "happy";
    MissingChar(lower, "how", 1);
    MissingChar(lower, "language", 0);
    MissingChar(lower, "skill", 0);
    MissingChar(lower, "stack", 0);
    MissingChar(lower, "tech", 0);
    MissingChar(lower, "contact", 0);
    MissingChar(lower, "email", 0);
    MissingChar(lower, "reach", 0);
    MissingChar(lower, "hire", 1);
    MissingChar(lower, "experience", 0);
    MissingChar(lower, "work", 0);
    MissingChar(lower, "job", 0);
    MissingChar(lower, "company", 0);
    MissingChar(lower, "project", 1);
    FoundBetween("h", "app", "y");
    assert "h" + "app" + "y" == lower;
  }
}
