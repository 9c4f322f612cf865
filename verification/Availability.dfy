/** The availability form of internal/handler/dashboard.go and the rules it can bring about. */
module Availability {
  import opened Entities
  import opened Schema
  import opened Slots
  import opened SlotTheory
  import opened Store

  /** The three fields of one weekday; an absent field reads as empty. */
  datatype FormDay = FormDay(active: bool, start: seq<Byte>, end: seq<Byte>)

  /** The rules of the first n weekdays: a day without both times has none. */
  function FormRules(userId: int, form: seq<FormDay>, n: nat): (rules: seq<Rule>)
    requires n <= |form|
    ensures OneRulePerWeekday(rules)
    ensures forall r :: r in rules <==>
                        && 0 <= r.weekday < n && r.userId == userId
                        && FormDay(r.active, r.startTime, r.endTime) == form[r.weekday]
                        && r.startTime != [] && r.endTime != []
  {
    if n == 0 then []
    else
      var day := form[n - 1];
      var front := FormRules(userId, form, n - 1);
      assert forall i :: 0 <= i < |front| ==> front[i] in front;
      if day.start == [] || day.end == [] then front
      else front + [Rule(userId, n - 1, day.start, day.end, day.active)]
  }

  lemma OwnRulesStay(userId: int, rules: seq<Rule>)
    requires forall r :: r in rules ==> r.userId == userId
    ensures RulesFor(userId, rules) == rules
  {
  }

  /** internal/handler/dashboard.go:239-267 */
  method HandleAvailabilityPost(db: Database, userId: int, form: seq<FormDay>)
    requires |form| == 7
    modifies db`rules
    ensures db.rules == RulesOfOthers(old(db.rules), userId) + FormRules(userId, form, 7)
  {
    var rules := [];
    for i := 0 to 7
      invariant rules == FormRules(userId, form, i)
    {
      var start, end := form[i].start, form[i].end;
      if start == [] || end == [] {
        continue;
      }
      rules := rules + [Rule(userId, i, start, end, form[i].active)];
    }
    OwnRulesStay(userId, rules);
    db.ReplaceAvailabilityRules(userId, rules);
  }

  lemma {:induction false} RulesOfAppend(a: seq<Rule>, b: seq<Rule>, userId: int)
    ensures RulesOf(a + b, userId) == RulesOf(a, userId) + RulesOf(b, userId)
    decreases |b|
  {
    if b == [] {
      assert a + b == a;
    } else {
      assert (a + b)[..|a + b| - 1] == a + b[..|b| - 1];
      RulesOfAppend(a, b[..|b| - 1], userId);
    }
  }

  lemma RulesOfOne(r: Rule, userId: int)
    ensures RulesOf([r], userId) == if r.userId == userId then [r] else []
  {
  }

  lemma {:induction false} RulesOfOthersOf(rules: seq<Rule>, userId: int, other: int)
    ensures RulesOf(RulesOfOthers(rules, userId), other) == if other == userId then [] else RulesOf(rules, other)
  {
    if rules != [] {
      var front, last := rules[..|rules| - 1], rules[|rules| - 1];
      RulesOfOthersOf(front, userId, other);
      RulesOfAppend(RulesOfOthers(front, userId), if last.userId != userId then [last] else [], other);
      RulesOfOne(last, other);
    }
  }

  lemma {:induction false} RulesOfUniform(rules: seq<Rule>, owner: int, userId: int)
    requires forall r :: r in rules ==> r.userId == owner
    ensures RulesOf(rules, userId) == if userId == owner then rules else []
  {
    if rules != [] {
      var front, last := rules[..|rules| - 1], rules[|rules| - 1];
      RulesOfUniform(front, owner, userId);
      assert last in rules;
      assert rules == front + [last];
    }
  }

  /**
    * The statement of ReplaceAvailabilityRules: its user has the new rules, in order and as his own, and others theirs.
    */
  lemma ReplacedExactly(t: Tables, userId: int, rules: seq<Rule>, other: int)
    ensures var t' := Administered(t, ReplaceRules(userId, rules));
            && t'.(rules := t.rules) == t
            && (other != userId ==> RulesOf(t'.rules, other) == RulesOf(t.rules, other))
            && |RulesOf(t'.rules, userId)| == |rules|
            && forall i :: 0 <= i < |rules| ==> RulesOf(t'.rules, userId)[i] == rules[i].(userId := userId)
  {
    var own := RulesFor(userId, rules);
    forall who | who in {userId, other}
      ensures RulesOf(RulesOfOthers(t.rules, userId) + own, who) == if who == userId then own else RulesOf(t.rules, who)
    {
      RulesOfAppend(RulesOfOthers(t.rules, userId), own, who);
      RulesOfOthersOf(t.rules, userId, who);
      RulesOfUniform(own, userId, who);
    }
    assert userId in {userId, other} && other in {userId, other};
  }

  datatype Post = Post(userId: int, form: seq<FormDay>)

  function Posted(rules: seq<Rule>, p: Post): seq<Rule>
    requires |p.form| == 7
  {
    RulesOfOthers(rules, p.userId) + FormRules(p.userId, p.form, 7)
  }

  /** A post replaces the rules of its user by those of the form and leaves everybody else's alone. */
  lemma PostIsLocal(rules: seq<Rule>, p: Post, userId: int)
    requires |p.form| == 7
    ensures RulesOf(Posted(rules, p), userId) ==
            if userId == p.userId then FormRules(p.userId, p.form, 7) else RulesOf(rules, userId)
  {
    RulesOfAppend(RulesOfOthers(rules, p.userId), FormRules(p.userId, p.form, 7), userId);
    RulesOfOthersOf(rules, p.userId, userId);
    RulesOfUniform(FormRules(p.userId, p.form, 7), p.userId, userId);
  }

  function PostedAll(rules: seq<Rule>, posts: seq<Post>): seq<Rule>
    requires forall p :: p in posts ==> |p.form| == 7
    decreases |posts|
  {
    if posts == [] then rules
    else
      assert posts[0] in posts;
      PostedAll(Posted(rules, posts[0]), posts[1..])
  }

  lemma {:induction false} PostsKeepOneRulePerWeekday(rules: seq<Rule>, posts: seq<Post>, userId: int)
    requires forall p :: p in posts ==> |p.form| == 7
    requires OneRulePerWeekday(RulesOf(rules, userId))
    ensures OneRulePerWeekday(RulesOf(PostedAll(rules, posts), userId))
    decreases |posts|
  {
    if posts != [] {
      assert posts[0] in posts;
      PostIsLocal(rules, posts[0], userId);
      PostsKeepOneRulePerWeekday(Posted(rules, posts[0]), posts[1..], userId);
    }
  }

  /** Whatever the dashboard was used for, the slots offered for a day follow one another without overlapping. */
  lemma DashboardSlotsAreDisjoint(posts: seq<Post>, userId: int, out: seq<Slot>, events: set<CalendarEvent>,
                                  bookings: set<Booking>, q: Query)
    requires forall p :: p in posts ==> |p.form| == 7
    requires Answers(out, RulesOf(PostedAll([], posts), userId), events, bookings, q)
    ensures forall i :: 0 <= i < |out| ==> out[i].start < out[i].end
    ensures forall i, j :: 0 <= i < j < |out| ==> out[i].end <= out[j].start
  {
    PostsKeepOneRulePerWeekday([], posts, userId);
    OfferedAreDisjoint(out, RulesOf(PostedAll([], posts), userId), events, bookings, q);
  }
}
