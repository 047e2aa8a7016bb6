/** The rule matcher: which messages a rule selects, and how editing a rule changes that. */
module RuleMatcher {
  import opened Wrappers

  datatype LogicalOperator = AND | OR

  datatype Message = Message(
    externalMessageId: string,
    sender: string,
    subject: string,
    bodyPreview: string,
    receivedAt: int,
    hasAttachment: bool)

  /** The JSON value of a condition, by what the matcher can see of it: `domain` and `contains`
      when they are strings, and whether `equals` is exactly `false`. */
  datatype ConditionValue = ConditionValue(domain: Option<string>, contains: Option<string>, equalsFalse: bool)

  datatype Condition = Condition(conditionType: string, conditionValue: ConditionValue)

  /** Unicode lower-casing and the emoji test, which the matcher takes from the platform. */
  datatype Text = Text(lower: string -> string, hasEmoji: string -> bool)

  predicate Includes(s: string, needle: string) {
    exists i :: 0 <= i <= |s| - |needle| && OccursAt(s, needle, i)
  }

  predicate OccursAt(s: string, needle: string, i: nat)
    requires i + |needle| <= |s|
  {
    s[i..i + |needle|] == needle
  }

  /** An absent or empty needle finds nothing. */
  predicate Finds(t: Text, haystack: string, needle: Option<string>) {
    needle.Some? && needle.value != "" && Includes(t.lower(haystack), t.lower(needle.value))
  }

  /** A sender condition looks for `domain` when it is given, for `contains` otherwise. */
  function SenderNeedle(value: ConditionValue): Option<string> {
    if value.domain.Some? then value.domain else value.contains
  }

  predicate EvaluateCondition(t: Text, message: Message, condition: Condition) {
    var value := condition.conditionValue;
    match condition.conditionType
    case "sender" =>
      Finds(t, message.sender, SenderNeedle(value))
    case "subject_keyword" =>
      Finds(t, message.subject, value.contains)
    case "body_keyword" =>
      Finds(t, message.bodyPreview, value.contains)
    case "has_emoji" =>
      (t.hasEmoji(message.subject) || t.hasEmoji(message.bodyPreview)) == !value.equalsFalse
    case "has_attachment" =>
      message.hasAttachment == !value.equalsFalse
    case _ =>
      false
  }

  /** A keyword is found when the lower-cased text splits around the lower-cased keyword. */
  lemma FindsMeaning(t: Text, haystack: string, needle: string)
    ensures Finds(t, haystack, Some(needle)) <==>
              needle != "" && exists before, after :: t.lower(haystack) == before + t.lower(needle) + after
  {
    var s, n := t.lower(haystack), t.lower(needle);
    if i :| 0 <= i <= |s| - |n| && OccursAt(s, n, i) {
      assert s == s[..i] + n + s[i + |n|..];
    }
    if before, after :| s == before + n + after {
      assert OccursAt(s, n, |before|);
    }
  }

  lemma SliceOfSlice(s: string, i: nat, l: nat, j: nat, n: nat)
    requires i + l <= |s| && j + n <= l
    ensures s[i..i + l][j..j + n] == s[i + j..i + j + n]
  {
    var part, whole := s[i..i + l][j..j + n], s[i + j..i + j + n];
    assert |part| == |whole| && forall k :: 0 <= k < n ==> part[k] == whole[k];
  }

  /** A keyword inside a longer keyword finds at least what the longer one finds. */
  lemma ShorterKeywordFindsMore(t: Text, haystack: string, longer: string, shorter: string)
    requires shorter != "" && Includes(t.lower(longer), t.lower(shorter))
    ensures Finds(t, haystack, Some(longer)) ==> Finds(t, haystack, Some(shorter))
  {
    var s, l, n := t.lower(haystack), t.lower(longer), t.lower(shorter);
    var j :| 0 <= j <= |l| - |n| && OccursAt(l, n, j);
    if i :| 0 <= i <= |s| - |l| && OccursAt(s, l, i) {
      SliceOfSlice(s, i, |l|, j, |n|);
      assert OccursAt(s, n, i + j);
    }
  }

  /** A condition reads one part of the message and one of its value, for all messages and values:
      whatever else differs, the answer is the same. Expecting absence negates the answer of expecting
      presence, and a condition of an unknown type never holds. */
  lemma ConditionMeaning(t: Text, kind: string, m: Message, n: Message, v: ConditionValue, w: ConditionValue)
    ensures kind == "sender" && m.sender == n.sender && SenderNeedle(v) == SenderNeedle(w) ==>
              (EvaluateCondition(t, m, Condition(kind, v)) <==> EvaluateCondition(t, n, Condition(kind, w)))
    ensures kind == "subject_keyword" && m.subject == n.subject && v.contains == w.contains ==>
              (EvaluateCondition(t, m, Condition(kind, v)) <==> EvaluateCondition(t, n, Condition(kind, w)))
    ensures kind == "body_keyword" && m.bodyPreview == n.bodyPreview && v.contains == w.contains ==>
              (EvaluateCondition(t, m, Condition(kind, v)) <==> EvaluateCondition(t, n, Condition(kind, w)))
    ensures kind == "has_emoji" && m.subject == n.subject && m.bodyPreview == n.bodyPreview &&
            v.equalsFalse == w.equalsFalse ==>
              (EvaluateCondition(t, m, Condition(kind, v)) <==> EvaluateCondition(t, n, Condition(kind, w)))
    ensures kind == "has_attachment" && m.hasAttachment == n.hasAttachment && v.equalsFalse == w.equalsFalse ==>
              (EvaluateCondition(t, m, Condition(kind, v)) <==> EvaluateCondition(t, n, Condition(kind, w)))
    ensures kind in {"has_emoji", "has_attachment"} && v.equalsFalse != w.equalsFalse ==>
              (EvaluateCondition(t, m, Condition(kind, v)) <==> !EvaluateCondition(t, m, Condition(kind, w)))
    ensures kind !in {"sender", "subject_keyword", "body_keyword", "has_emoji", "has_attachment"} ==>
              !EvaluateCondition(t, m, Condition(kind, v))
  {
  }

  /** The lower-cased text has the lower-cased word, which is not empty before lower-casing, inside it. */
  ghost predicate Mentions(t: Text, text: string, word: string) {
    word != "" && exists before, after :: t.lower(text) == before + t.lower(word) + after
  }

  /** Which way each condition answers: a keyword must be mentioned in its part of the message, a sender
      condition prefers `domain` to `contains` even when `domain` is empty, and presence is expected
      unless `equals` is false. */
  lemma ConditionAnswers(t: Text, m: Message, v: ConditionValue)
    ensures EvaluateCondition(t, m, Condition("sender", v)) <==>
              if v.domain.Some? then Mentions(t, m.sender, v.domain.value)
              else v.contains.Some? && Mentions(t, m.sender, v.contains.value)
    ensures EvaluateCondition(t, m, Condition("subject_keyword", v)) <==>
              v.contains.Some? && Mentions(t, m.subject, v.contains.value)
    ensures EvaluateCondition(t, m, Condition("body_keyword", v)) <==>
              v.contains.Some? && Mentions(t, m.bodyPreview, v.contains.value)
    ensures !v.equalsFalse ==> (EvaluateCondition(t, m, Condition("has_attachment", v)) <==> m.hasAttachment)
    ensures !v.equalsFalse ==>
              (EvaluateCondition(t, m, Condition("has_emoji", v)) <==>
               t.hasEmoji(m.subject) || t.hasEmoji(m.bodyPreview))
  {
    if v.domain.Some? {
      FindsMeaning(t, m.sender, v.domain.value);
    }
    if v.contains.Some? {
      FindsMeaning(t, m.sender, v.contains.value);
      FindsMeaning(t, m.subject, v.contains.value);
      FindsMeaning(t, m.bodyPreview, v.contains.value);
    }
    hide Finds;
  }

  function Results(t: Text, message: Message, conditions: seq<Condition>): seq<bool> {
    seq(|conditions|, i requires 0 <= i < |conditions| => EvaluateCondition(t, message, conditions[i]))
  }

  predicate MessageMatchesRule(t: Text, message: Message, op: LogicalOperator, conditions: seq<Condition>) {
    if |conditions| == 0 then false else
    var results := Results(t, message, conditions);
    if op.OR? then true in results else false !in results
  }

  ghost function ConditionSet(conditions: seq<Condition>): set<Condition> {
    set c | c in conditions
  }

  ghost function Test(t: Text, message: Message): Condition -> bool {
    c => EvaluateCondition(t, message, c)
  }

  /** What a set of conditions means under each operator. */
  ghost predicate Selects(holds: Condition -> bool, op: LogicalOperator, conditions: set<Condition>) {
    conditions != {} &&
    if op.OR? then exists c :: c in conditions && holds(c) else forall c :: c in conditions ==> holds(c)
  }

  /** A rule means a non-empty set of conditions: their order and repetition do not matter. */
  lemma MatchMeaning(t: Text, m: Message, op: LogicalOperator, cs: seq<Condition>)
    ensures MessageMatchesRule(t, m, op, cs) <==> Selects(Test(t, m), op, ConditionSet(cs))
  {
    if |cs| > 0 {
      DecisionMeaning(Test(t, m), Results(t, m, cs), op, cs);
    }
  }

  lemma DecisionMeaning(holds: Condition -> bool, results: seq<bool>, op: LogicalOperator, cs: seq<Condition>)
    requires |results| == |cs| > 0 && forall i :: 0 <= i < |cs| ==> results[i] == holds(cs[i])
    ensures (if op.OR? then true in results else false !in results) <==> Selects(holds, op, ConditionSet(cs))
  {
    assert cs[0] in ConditionSet(cs);
    forall c | c in ConditionSet(cs)
      ensures holds(c) in results
    {
      var i :| 0 <= i < |cs| && cs[i] == c;
      assert results[i] == holds(c);
    }
  }

  lemma SameConditionsSameMatches(t: Text, m: Message, op: LogicalOperator, cs: seq<Condition>, ds: seq<Condition>)
    requires ConditionSet(cs) == ConditionSet(ds)
    ensures MessageMatchesRule(t, m, op, cs) == MessageMatchesRule(t, m, op, ds)
  {
    MatchMeaning(t, m, op, cs);
    MatchMeaning(t, m, op, ds);
  }

  /** With one condition (however often repeated) the operator is irrelevant; with more, AND selects
      a part of what OR selects. */
  lemma OperatorOrder(t: Text, m: Message, cs: seq<Condition>)
    ensures MessageMatchesRule(t, m, AND, cs) ==> MessageMatchesRule(t, m, OR, cs)
    ensures |ConditionSet(cs)| == 1 ==> MessageMatchesRule(t, m, AND, cs) == MessageMatchesRule(t, m, OR, cs)
  {
    MatchMeaning(t, m, AND, cs);
    MatchMeaning(t, m, OR, cs);
    SelectionOrder(Test(t, m), ConditionSet(cs));
  }

  lemma SelectionOrder(holds: Condition -> bool, cs: set<Condition>)
    ensures Selects(holds, AND, cs) ==> Selects(holds, OR, cs)
    ensures |cs| == 1 ==> Selects(holds, AND, cs) == Selects(holds, OR, cs)
  {
    if cs != {} {
      var c :| c in cs;
      assert |cs - {c}| == |cs| - 1;
      assert |cs| == 1 ==> cs == {c};
    }
  }

  /** Adding a condition to a non-empty rule narrows an AND rule and widens an OR rule. */
  lemma AddedCondition(t: Text, m: Message, cs: seq<Condition>, c: Condition)
    ensures cs != [] && MessageMatchesRule(t, m, AND, cs + [c]) ==> MessageMatchesRule(t, m, AND, cs)
    ensures MessageMatchesRule(t, m, OR, cs) ==> MessageMatchesRule(t, m, OR, cs + [c])
  {
    assert ConditionSet(cs + [c]) == ConditionSet(cs) + {c};
    assert cs != [] ==> cs[0] in ConditionSet(cs);
    MatchMeaning(t, m, AND, cs);
    MatchMeaning(t, m, OR, cs);
    MatchMeaning(t, m, AND, cs + [c]);
    MatchMeaning(t, m, OR, cs + [c]);
    AddedToSet(Test(t, m), ConditionSet(cs), c);
  }

  lemma AddedToSet(holds: Condition -> bool, cs: set<Condition>, c: Condition)
    ensures cs != {} && Selects(holds, AND, cs + {c}) ==> Selects(holds, AND, cs)
    ensures Selects(holds, OR, cs) ==> Selects(holds, OR, cs + {c})
  {
  }

  /** The exception: an empty rule matches nothing, so its first condition widens it even under AND. */
  lemma FirstConditionWidens(t: Text, m: Message, op: LogicalOperator, c: Condition)
    ensures !MessageMatchesRule(t, m, op, [])
    ensures MessageMatchesRule(t, m, op, [c]) <==> EvaluateCondition(t, m, c)
  {
    MatchMeaning(t, m, op, [c]);
    assert ConditionSet([c]) == {c};
    assert Test(t, m)(c) == EvaluateCondition(t, m, c);
  }
}
