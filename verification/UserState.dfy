/** The user state document: merging a session's reflection into it, and compaction.

    Case mapping is a parameter, as is the size of a serialised document. */
module UserState {
  import opened Basics


  datatype Source = UserDeferred | AgentCommitted

  datatype PendingAction = PendingAction(action: string, created: string, source: Source)

  datatype LastSession = LastSession(date: string, summary: string)

  /** The parts of the document that a reflection or a compaction can change. */
  datatype Doc = Doc(lastSession: Option<LastSession>, currentFocus: string, pendingActions: seq<PendingAction>, preferences: seq<string>,
                     avgSessionLength: int, skillsMostUsed: seq<string>, updatedAt: string)

  datatype Reflection = Reflection(accomplished: seq<string>, pending: seq<string>, commitments: seq<string>, preferences: seq<string>)

  /** The session that is reflected on; the empty skill stands for none. */
  datatype Session = Session(today: string, activeSkill: string, messageCount: int)

  /** Case mapping, the size of the serialised document, its limit, and the preference cap. */
  datatype Settings = Settings(lower: string -> string, size: Doc -> nat, maxChars: int, maxPreferences: nat)

  function FirstOf<T>(s: seq<T>, n: nat): (r: seq<T>)
    ensures r <= s && |r| == Min(|s|, n)
  {
    if |s| <= n then s else s[..n]
  }

  function Actions(items: seq<string>, today: string, source: Source): (r: seq<PendingAction>)
    ensures |r| == |items|
    ensures forall i :: 0 <= i < |items| ==> r[i] == PendingAction(items[i], today, source)
  {
    seq(|items|, i requires 0 <= i < |items| => PendingAction(items[i], today, source))
  }

  predicate ListsIgnoringCase(s: Settings, items: seq<string>, item: string) {
    exists i :: 0 <= i < |items| && s.lower(items[i]) == s.lower(item)
  }

  function Unaccomplished(s: Settings, actions: seq<PendingAction>, accomplished: seq<string>): seq<PendingAction> {
    if actions == [] then []
    else (if ListsIgnoringCase(s, accomplished, actions[0].action) then [] else [actions[0]]) + Unaccomplished(s, actions[1..], accomplished)
  }

  function WithPreferences(s: Settings, existing: seq<string>, added: seq<string>): seq<string> {
    if added == [] then existing
    else
      var init, last := added[..|added| - 1], added[|added| - 1];
      var merged := WithPreferences(s, existing, init);
      if ListsIgnoringCase(s, merged, last) then merged else merged + [last]
  }

  /** The document without its `k` oldest pending actions. */
  function Without(d: Doc, k: nat): Doc
    requires k <= |d.pendingActions|
  {
    d.(pendingActions := d.pendingActions[k..])
  }

  function Compacted(s: Settings, d: Doc): Doc
    decreases |d.pendingActions|
  {
    if s.size(d) > s.maxChars && d.pendingActions != [] then Compacted(s, Without(d, 1)) else d
  }

  function Join(separator: string, parts: seq<string>): string {
    if parts == [] then "" else if |parts| == 1 then parts[0] else parts[0] + separator + Join(separator, parts[1..])
  }

  function SummaryOf(r: Reflection): string {
    var parts := (if r.accomplished != [] then [Join("; ", FirstOf(r.accomplished, 3))] else [])
                 + (if r.pending != [] then ["Deferred: " + Join("; ", FirstOf(r.pending, 2))] else []);
    if parts != [] then Join(". ", parts) else "Brief session."
  }

  function AverageLength(average: int, messageCount: int): int {
    if messageCount <= 0 then average
    else if average == 0 then messageCount
    else (average + messageCount) / 2
  }

  function UsedSkills(skills: seq<string>, active: string): seq<string> {
    if active == "" || active in skills then skills
    else
      var longer := skills + [active];
      if |longer| > 5 then longer[|longer| - 5..] else longer
  }

  /** Old actions, then what the user deferred, then what the agent committed to, less what was accomplished. */
  function MergedActions(s: Settings, actions: seq<PendingAction>, r: Reflection, today: string): seq<PendingAction> {
    Unaccomplished(s, actions + Actions(FirstOf(r.pending, 5), today, UserDeferred) + Actions(FirstOf(r.commitments, 3), today, AgentCommitted),
                   r.accomplished)
  }

  /** The document after a reflection, before compaction. */
  function Merged(s: Settings, d: Doc, r: Reflection, session: Session): Doc {
    Doc(Some(LastSession(session.today, SummaryOf(r))),
        if r.accomplished != [] then r.accomplished[0] else d.currentFocus,
        MergedActions(s, d.pendingActions, r, session.today),
        FirstOf(WithPreferences(s, d.preferences, FirstOf(r.preferences, 3)), s.maxPreferences),
        AverageLength(d.avgSessionLength, session.messageCount),
        UsedSkills(d.skillsMostUsed, session.activeSkill),
        session.today)
  }

  class UserStateDoc {
    var lastSession: Option<LastSession>
    var currentFocus: string
    var pendingActions: seq<PendingAction>
    var preferences: seq<string>
    var avgSessionLength: int
    var skillsMostUsed: seq<string>
    var updatedAt: string

    function View(): Doc
      reads this
    {
      Doc(lastSession, currentFocus, pendingActions, preferences, avgSessionLength, skillsMostUsed, updatedAt)
    }

    method Compact(s: Settings)
      modifies this`pendingActions
      ensures View() == Compacted(s, old(View()))
    {
      while s.size(View()) > s.maxChars && pendingActions != []
        invariant Compacted(s, old(View())) == Compacted(s, View())
        decreases |pendingActions|
      {
        pendingActions := pendingActions[1..];
      }
    }

    method MergePending(s: Settings, r: Reflection, today: string)
      modifies this`pendingActions
      ensures pendingActions == MergedActions(s, old(pendingActions), r, today)
    {
      var deferred := FirstOf(r.pending, 5);
      for i := 0 to |deferred|
        invariant pendingActions == old(pendingActions) + Actions(deferred, today, UserDeferred)[..i]
      {
        pendingActions := pendingActions + [PendingAction(deferred[i], today, UserDeferred)];
      }
      assert Actions(deferred, today, UserDeferred)[..|deferred|] == Actions(deferred, today, UserDeferred);
      var committed := FirstOf(r.commitments, 3);
      ghost var withDeferred := pendingActions;
      for i := 0 to |committed|
        invariant pendingActions == withDeferred + Actions(committed, today, AgentCommitted)[..i]
      {
        pendingActions := pendingActions + [PendingAction(committed[i], today, AgentCommitted)];
      }
      assert Actions(committed, today, AgentCommitted)[..|committed|] == Actions(committed, today, AgentCommitted);
      pendingActions := Unaccomplished(s, pendingActions, r.accomplished);
    }

    method MergePreferences(s: Settings, r: Reflection)
      modifies this`preferences
      ensures preferences == FirstOf(WithPreferences(s, old(preferences), FirstOf(r.preferences, 3)), s.maxPreferences)
    {
      var added := FirstOf(r.preferences, 3);
      for i := 0 to |added|
        invariant preferences == WithPreferences(s, old(preferences), added[..i])
      {
        assert added[..i + 1][..i] == added[..i];
        if !ListsIgnoringCase(s, preferences, added[i]) {
          preferences := preferences + [added[i]];
        }
      }
      assert added[..|added|] == added;
      preferences := FirstOf(preferences, s.maxPreferences);
    }

    method MergePatterns(session: Session)
      modifies this`avgSessionLength, this`skillsMostUsed
      ensures avgSessionLength == AverageLength(old(avgSessionLength), session.messageCount)
      ensures skillsMostUsed == UsedSkills(old(skillsMostUsed), session.activeSkill)
    {
      if session.messageCount > 0 {
        if avgSessionLength == 0 {
          avgSessionLength := session.messageCount;
        } else {
          avgSessionLength := (avgSessionLength + session.messageCount) / 2;
        }
      }
      if session.activeSkill != "" && session.activeSkill !in skillsMostUsed {
        skillsMostUsed := skillsMostUsed + [session.activeSkill];
        if |skillsMostUsed| > 5 {
          skillsMostUsed := skillsMostUsed[|skillsMostUsed| - 5..];
        }
      }
    }

    method MergeReflection(s: Settings, r: Reflection, session: Session)
      modifies this
      ensures View() == Compacted(s, Merged(s, old(View()), r, session))
    {
      lastSession := Some(LastSession(session.today, SummaryOf(r)));
      if r.accomplished != [] {
        currentFocus := r.accomplished[0];
      }
      MergePending(s, r, session.today);
      MergePreferences(s, r);
      MergePatterns(session);
      updatedAt := session.today;
      assert View() == Merged(s, old(View()), r, session);
      Compact(s);
    }
  }

  // ----- Pending actions -----

  /** Some accomplished item is, up to case, this action. */
  ghost predicate IsAccomplished(s: Settings, r: Reflection, action: string) {
    exists item :: item in r.accomplished && s.lower(item) == s.lower(action)
  }

  lemma AccomplishedIsListed(s: Settings, r: Reflection, action: string)
    ensures ListsIgnoringCase(s, r.accomplished, action) <==> IsAccomplished(s, r, action)
  {
    if item :| item in r.accomplished && s.lower(item) == s.lower(action) {
      var i :| 0 <= i < |r.accomplished| && r.accomplished[i] == item;
      assert s.lower(r.accomplished[i]) == s.lower(action);
    }
  }

  /** Filtering keeps exactly the actions that match no accomplished item, and their multiplicity. */
  lemma {:induction false} UnaccomplishedExactly(s: Settings, actions: seq<PendingAction>, r: Reflection, a: PendingAction)
    ensures multiset(Unaccomplished(s, actions, r.accomplished))[a]
         == if IsAccomplished(s, r, a.action) then 0 else multiset(actions)[a]
  {
    AccomplishedIsListed(s, r, a.action);
    if actions != [] {
      UnaccomplishedExactly(s, actions[1..], r, a);
      assert actions == [actions[0]] + actions[1..];
    }
  }

  lemma UnaccomplishedInFront(s: Settings, first: PendingAction, rest: seq<PendingAction>, accomplished: seq<string>)
    ensures Unaccomplished(s, [first] + rest, accomplished)
         == (if ListsIgnoringCase(s, accomplished, first.action) then [] else [first]) + Unaccomplished(s, rest, accomplished)
  {
    assert ([first] + rest)[1..] == rest;
  }

  lemma {:induction false} UnaccomplishedOfParts(s: Settings, a: seq<PendingAction>, b: seq<PendingAction>, accomplished: seq<string>)
    ensures Unaccomplished(s, a + b, accomplished) == Unaccomplished(s, a, accomplished) + Unaccomplished(s, b, accomplished)
  {
    if a == [] {
      assert a + b == b;
    } else {
      UnaccomplishedOfParts(s, a[1..], b, accomplished);
      HeadInFront(a, b);
      UnaccomplishedInFront(s, a[0], a[1..] + b, accomplished);
      UnaccomplishedInFront(s, a[0], a[1..], accomplished);
      ConcatAssociates(if ListsIgnoringCase(s, accomplished, a[0].action) then [] else [a[0]],
                       Unaccomplished(s, a[1..], accomplished), Unaccomplished(s, b, accomplished));
    }
  }

  /** A merge keeps the order: what is left of the old actions, then of at most five deferred items,
      then of at most three commitments, the new ones dated and marked with where they come from. */
  lemma MergedActionsKeepOrder(s: Settings, d: Doc, r: Reflection, session: Session)
    ensures var deferred, committed := FirstOf(r.pending, 5), FirstOf(r.commitments, 3);
            Merged(s, d, r, session).pendingActions ==
              Unaccomplished(s, d.pendingActions, r.accomplished)
            + Unaccomplished(s, seq(|deferred|, i requires 0 <= i < |deferred| => PendingAction(deferred[i], session.today, UserDeferred)), r.accomplished)
            + Unaccomplished(s, seq(|committed|, i requires 0 <= i < |committed| => PendingAction(committed[i], session.today, AgentCommitted)), r.accomplished)
  {
    var deferred, committed := FirstOf(r.pending, 5), FirstOf(r.commitments, 3);
    var first, second := Actions(deferred, session.today, UserDeferred), Actions(committed, session.today, AgentCommitted);
    UnaccomplishedOfParts(s, d.pendingActions + first, second, r.accomplished);
    UnaccomplishedOfParts(s, d.pendingActions, first, r.accomplished);
    assert first == seq(|deferred|, i requires 0 <= i < |deferred| => PendingAction(deferred[i], session.today, UserDeferred));
    assert second == seq(|committed|, i requires 0 <= i < |committed| => PendingAction(committed[i], session.today, AgentCommitted));
  }

  lemma {:induction false} CompactedIsSuffix(s: Settings, d: Doc) returns (k: nat)
    ensures IsShortestDrop(s, d, k) && Compacted(s, d) == Without(d, k)
    decreases |d.pendingActions|
  {
    assert Without(d, 0) == d by { assert d.pendingActions[0..] == d.pendingActions; }
    if s.size(d) > s.maxChars && d.pendingActions != [] {
      var k' := CompactedIsSuffix(s, Without(d, 1));
      k := k' + 1;
      WithoutMore(d, k');
      forall j | 0 <= j < k ensures s.size(Without(d, j)) > s.maxChars {
        if j > 0 { WithoutMore(d, j - 1); }
      }
    } else {
      k := 0;
    }
  }

  lemma WithoutMore(d: Doc, k: nat)
    requires k < |d.pendingActions|
    ensures Without(Without(d, 1), k) == Without(d, k + 1)
  {
    assert d.pendingActions[1..][k..] == d.pendingActions[k + 1..];
  }

  /** Dropping the first `k` actions is the least that compaction can do: it fits, or nothing is
      left, and no shorter prefix would have been enough. */
  ghost predicate IsShortestDrop(s: Settings, d: Doc, k: nat) {
    && k <= |d.pendingActions|
    && (k == |d.pendingActions| || s.size(Without(d, k)) <= s.maxChars)
    && forall j :: 0 <= j < k ==> s.size(Without(d, j)) > s.maxChars
  }

  /** Compaction drops exactly the shortest prefix of the oldest actions that makes the document fit,
      and changes nothing else, for any size measure whatever. */
  lemma CompactionDropsShortestPrefix(s: Settings, d: Doc, k: nat)
    requires IsShortestDrop(s, d, k)
    ensures Compacted(s, d) == Without(d, k)
  {
    var found := CompactedIsSuffix(s, d);
  }

  lemma CompactionIsIdempotent(s: Settings, d: Doc)
    ensures Compacted(s, Compacted(s, d)) == Compacted(s, d)
  {
    var k := CompactedIsSuffix(s, d);
  }

  /** After a merge and its compaction no pending action is one of the accomplished items. */
  lemma NothingAccomplishedIsPending(s: Settings, d: Doc, r: Reflection, session: Session)
    ensures forall a :: a in Compacted(s, Merged(s, d, r, session)).pendingActions ==> !IsAccomplished(s, r, a.action)
  {
    var merged := MergedActions(s, d.pendingActions, r, session.today);
    var k := CompactedIsSuffix(s, Merged(s, d, r, session));
    forall a | a in merged[k..] ensures !IsAccomplished(s, r, a.action) {
      assert a in merged;
      assert multiset(merged)[a] > 0;
      UnaccomplishedExactly(s, d.pendingActions + Actions(FirstOf(r.pending, 5), session.today, UserDeferred)
                               + Actions(FirstOf(r.commitments, 3), session.today, AgentCommitted),
                            r, a);
    }
  }

  // ----- Session, focus and working patterns -----

  /** The session is dated and summarised; the focus moves to the first accomplished item, if any. The
      summary names at most three accomplished and two deferred items, or says that it was brief. */
  lemma SessionAndFocus(s: Settings, d: Doc, r: Reflection, session: Session)
    ensures var merged := Merged(s, d, r, session);
            && merged.updatedAt == session.today
            && merged.lastSession.Some? && merged.lastSession.value.date == session.today
            && merged.currentFocus == (if r.accomplished == [] then d.currentFocus else r.accomplished[0])
    ensures var summary := Merged(s, d, r, session).lastSession.value.summary;
            && (r.accomplished == [] && r.pending == [] ==> summary == "Brief session.")
            && (r.accomplished != [] && r.pending == [] ==> summary == Join("; ", FirstOf(r.accomplished, 3)))
            && (r.accomplished == [] && r.pending != [] ==> summary == "Deferred: " + Join("; ", FirstOf(r.pending, 2)))
            && (r.accomplished != [] && r.pending != [] ==>
                 summary == Join("; ", FirstOf(r.accomplished, 3)) + ". " + ("Deferred: " + Join("; ", FirstOf(r.pending, 2))))
  {
    var done, left := Join("; ", FirstOf(r.accomplished, 3)), "Deferred: " + Join("; ", FirstOf(r.pending, 2));
    JoinOfParts(". ", [done], [left]);
    assert Join(". ", [left]) == left;
  }

  /** Joining puts the separator between each two parts and nowhere else. */
  lemma {:induction false} JoinOfParts(separator: string, a: seq<string>, b: seq<string>)
    requires a != [] && b != []
    ensures Join(separator, a + b) == Join(separator, a) + separator + Join(separator, b)
    ensures Join(separator, [a[0]]) == a[0] && Join(separator, []) == ""
  {
    HeadInFront(a, b);
    JoinInFront(separator, a[0], a[1..] + b);
    if |a| == 1 {
      assert a[1..] + b == b;
    } else {
      JoinOfParts(separator, a[1..], b);
      JoinInFront(separator, a[0], a[1..]);
      var rest := Join(separator, a[1..]);
      ConcatAssociates(a[0] + separator, rest, separator);
      ConcatAssociates(a[0] + separator, rest + separator, Join(separator, b));
    }
  }

  lemma JoinInFront(separator: string, first: string, rest: seq<string>)
    requires rest != []
    ensures Join(separator, [first] + rest) == first + separator + Join(separator, rest)
  {
    assert ([first] + rest)[1..] == rest;
  }

  /** The running average is the mean of what it was and the new session's length, rounded down; the
      first session starts it and an empty one leaves it. */
  lemma AverageExactly(s: Settings, d: Doc, r: Reflection, session: Session)
    ensures var before, after, count := d.avgSessionLength, Merged(s, d, r, session).avgSessionLength, session.messageCount;
            && (count <= 0 ==> after == before)
            && (count > 0 && before == 0 ==> after == count)
            && (count > 0 && before != 0 ==> 2 * after <= before + count < 2 * after + 2)
            && (count > 0 && before != 0 ==> Min(before, count) <= after <= Max(before, count))
  {}

  /** The list of skills stays free of repetitions and within five entries, knows the active skill,
      and otherwise forgets only from the front. */
  lemma SkillsAreRecent(s: Settings, d: Doc, r: Reflection, session: Session)
    requires Distinct(d.skillsMostUsed) && |d.skillsMostUsed| <= 5
    ensures var skills, used, active := d.skillsMostUsed, Merged(s, d, r, session).skillsMostUsed, session.activeSkill;
            && Distinct(used) && |used| <= 5
            && (active != "" ==> active in used)
            && (active != "" && active !in skills ==> used == (if |skills| == 5 then skills[1..] else skills) + [active])
            && (active == "" || active in skills ==> used == skills)
  {
    UsedSkillsAreRecent(d.skillsMostUsed, session.activeSkill);
  }

  lemma UsedSkillsAreRecent(skills: seq<string>, active: string)
    requires Distinct(skills) && |skills| <= 5
    ensures var used := UsedSkills(skills, active);
            && Distinct(used) && |used| <= 5
            && (active != "" ==> active in used)
            && (active != "" && active !in skills ==> used == (if |skills| == 5 then skills[1..] else skills) + [active])
            && (active == "" || active in skills ==> used == skills)
  {
    if active != "" && active !in skills {
      var used := UsedSkills(skills, active);
      assert used[|used| - 1] == active;
      assert |skills| == 5 ==> (skills + [active])[1..] == skills[1..] + [active];
    }
  }

  // ----- Preferences -----

  ghost predicate DistinctIgnoringCase(s: Settings, items: seq<string>) {
    forall i, j :: 0 <= i < j < |items| ==> s.lower(items[i]) != s.lower(items[j])
  }

  /** Adding preferences extends the list, keeps it distinct up to case if it was, and leaves no
      added preference unrepresented. */
  lemma {:induction false} PreferencesStayDistinct(s: Settings, existing: seq<string>, added: seq<string>)
    ensures var merged := WithPreferences(s, existing, added);
            && existing <= merged && |merged| <= |existing| + |added|
            && (DistinctIgnoringCase(s, existing) ==> DistinctIgnoringCase(s, merged))
            && (forall p :: p in added ==> ListsIgnoringCase(s, merged, p))
            && (forall i :: |existing| <= i < |merged| ==> merged[i] in added && !ListsIgnoringCase(s, existing, merged[i]))
    decreases |added|
  {
    if added != [] {
      var init, last := added[..|added| - 1], added[|added| - 1];
      PreferencesStayDistinct(s, existing, init);
      var before, after := WithPreferences(s, existing, init), WithPreferences(s, existing, added);
      assert added == init + [last];
      assert before <= after;
      forall p | p in added ensures ListsIgnoringCase(s, after, p) {
        if p in init {
          assert ListsIgnoringCase(s, before, p);
          var i :| 0 <= i < |before| && s.lower(before[i]) == s.lower(p);
          assert after[i] == before[i];
        } else if !ListsIgnoringCase(s, before, last) {
          assert after[|before|] == last;
        }
      }
      if !ListsIgnoringCase(s, before, last) {
        forall i | 0 <= i < |existing| ensures s.lower(existing[i]) != s.lower(last) {
          assert before[i] == existing[i];
        }
      }
    }
  }

  /** The merged preferences respect the cap, stay distinct up to case, and keep the existing ones,
      in order, before the new ones: when the list is full, new preferences are dropped. While there
      is room, each of the first three new ones is represented. */
  lemma PreferencesAreCapped(s: Settings, d: Doc, r: Reflection, session: Session)
    requires DistinctIgnoringCase(s, d.preferences)
    ensures var existing, kept := d.preferences, Merged(s, d, r, session).preferences;
            && |kept| <= s.maxPreferences && DistinctIgnoringCase(s, kept)
            && (|existing| >= s.maxPreferences ==> kept == existing[..s.maxPreferences])
            && (|existing| < s.maxPreferences ==> existing <= kept)
            && (|existing| + 3 <= s.maxPreferences ==>
                 forall i :: 0 <= i < 3 && i < |r.preferences| ==> exists k :: 0 <= k < |kept| && s.lower(kept[k]) == s.lower(r.preferences[i]))
  {
    var existing, added := d.preferences, FirstOf(r.preferences, 3);
    PreferencesStayDistinct(s, existing, added);
    var merged := WithPreferences(s, existing, added);
    if |existing| >= s.maxPreferences {
      assert existing[..s.maxPreferences] == merged[..s.maxPreferences];
    }
    if |existing| + 3 <= s.maxPreferences {
      forall i | 0 <= i < 3 && i < |r.preferences|
        ensures exists k :: 0 <= k < |merged| && s.lower(merged[k]) == s.lower(r.preferences[i])
      {
        assert added[i] == r.preferences[i] && added[i] in added;
        assert ListsIgnoringCase(s, merged, added[i]);
      }
    }
  }
}
