/**
 Fan-out of intents and fan-in of interests: the member and cancel slices that are edited side
 by side, and the verdict on a message sent to every member.
 */
module FanOut {
  import opened Sequences
  import opened Wrappers

  // ---------------------------------------------------------------- members and their cancels

  /**
   Slot i of one slice belongs to slot i of the other. A cancel has been called exactly when its
   slot is gone.
   */
  ghost predicate Paired(members: seq<nat>, cancels: seq<nat>, made: map<nat, nat>, called: set<nat>) {
    && |members| == |cancels|
    && Distinct(cancels)
    && (forall i | 0 <= i < |cancels| :: cancels[i] in made && made[cancels[i]] == members[i])
    && called <= made.Keys
    && (forall c | c in made :: Contains(cancels, c) <==> c !in called)
  }

  class Members {
    var members: seq<nat>
    var cancels: seq<nat>
    var closed: bool
    ghost var made: map<nat, nat>        // cancel function -> the member it was made for
    ghost var called: set<nat>           // cancel functions called so far

    ghost predicate Valid()
      reads this
    {
      Paired(members, cancels, made, called)
    }

    constructor ()
      ensures Valid() && members == [] && made == map[] && called == {} && !closed
    {
      members, cancels, closed, made, called := [], [], false, map[], {};
    }

    /**
     An intent of the same route may be added more than once; every addition gets its own cancel.
     One of another route is refused.
     */
    method Add(m: nat, sameRoute: bool, cancel: nat) returns (ok: bool)
      requires Valid() && cancel !in made
      modifies this
      ensures Valid() && ok == sameRoute && called == old(called) && closed == old(closed)
      ensures if ok then members == old(members) + [m] && cancels == old(cancels) + [cancel] && made == old(made)[cancel := m]
              else members == old(members) && cancels == old(cancels) && made == old(made)
    {
      if !sameRoute {
        return false;
      }
      AddPairs(members, cancels, made, called, m, cancel);
      members := members + [m];
      cancels := cancels + [cancel];
      made := made[cancel := m];
      return true;
    }

    method Find(m: nat) returns (idx: nat)
      ensures idx == IndexOf(members, m)
    {
      idx := 0;
      while idx < |members| && members[idx] != m
        invariant 0 <= idx <= |members|
        invariant forall i | 0 <= i < idx :: members[i] != m
      {
        idx := idx + 1;
      }
    }

    /** An interest is added at most once. */
    method AddOnce(m: nat, sameRoute: bool, cancel: nat) returns (ok: bool)
      requires Valid() && cancel !in made
      modifies this
      ensures Valid() && ok == sameRoute && called == old(called) && closed == old(closed)
      ensures if !ok || Contains(old(members), m) then members == old(members) && cancels == old(cancels) && made == old(made)
              else members == old(members) + [m] && cancels == old(cancels) + [cancel] && made == old(made)[cancel := m]
    {
      if !sameRoute {
        return false;
      }
      var idx := Find(m);
      if idx < |members| {
        return true;
      }
      ok := Add(m, sameRoute, cancel);
    }

    /** Removes the first occurrence and calls the very cancel that was made for it. */
    method Remove(m: nat, closeWhenEmpty: bool)
      requires Valid()
      modifies this
      ensures Valid() && made == old(made) && members == RemoveFirst(old(members), m)
      ensures var k := IndexOf(old(members), m);
              if k == |old(members)| then cancels == old(cancels) && called == old(called) && closed == old(closed)
              else
                && cancels == old(cancels)[..k] + old(cancels)[k + 1..]
                && called == old(called) + {old(cancels)[k]}
                && closed == (old(closed) || (closeWhenEmpty && members == []))
    {
      var idx := Find(m);
      if idx == |members| {
        return;
      }
      RemovePairs(members, cancels, made, called, idx);
      called := called + {cancels[idx]};
      members := members[..idx] + members[idx + 1..];
      cancels := cancels[..idx] + cancels[idx + 1..];
      if |members| > 0 {
        return;
      }
      if closeWhenEmpty {
        closed := true;
      }
    }
  }

  lemma AddPairs(members: seq<nat>, cancels: seq<nat>, made: map<nat, nat>, called: set<nat>, m: nat, cancel: nat)
    requires Paired(members, cancels, made, called) && cancel !in made
    ensures Paired(members + [m], cancels + [cancel], made[cancel := m], called)
  {
    forall c | c in made[cancel := m] ensures Contains(cancels + [cancel], c) <==> c !in called {
      AppendContains(cancels, cancel, c);
    }
  }

  /** Whichever slot is deleted from both slices, the others stay paired and its own cancel is the one called. */
  lemma RemovePairs(members: seq<nat>, cancels: seq<nat>, made: map<nat, nat>, called: set<nat>, k: nat)
    requires Paired(members, cancels, made, called) && k < |members|
    ensures Paired(DeleteAt(members, k), DeleteAt(cancels, k), made, called + {cancels[k]})
  {
    DeletedElements(members, k);
    DeletedElements(cancels, k);
    CancelsStayPaired(cancels, made, called, k);
  }

  lemma CancelsStayPaired(cancels: seq<nat>, made: map<nat, nat>, called: set<nat>, k: nat)
    requires Distinct(cancels) && k < |cancels|
    requires forall c | c in made :: Contains(cancels, c) <==> c !in called
    ensures forall c | c in made :: Contains(DeleteAt(cancels, k), c) <==> c !in called + {cancels[k]}
  {
    assert IndexOf(cancels, cancels[k]) == k;
    forall c | c in made ensures Contains(DeleteAt(cancels, k), c) <==> c !in called + {cancels[k]} {
      RemovedContains(cancels, cancels[k], c);
    }
  }

  // ---------------------------------------------------------------- errors

  datatype Err = NoInterest | InvalidType | Closed | Other(code: nat) | Joined(errs: seq<Err>)

  /** A nil error is None. */
  type Answer = Option<Err>

  /** errors.Is(err, ErrNoInterest): joined errors are searched. */
  predicate IsNoInterest(e: Err) {
    match e
    case NoInterest => true
    case Joined(errs) => exists i :: 0 <= i < |errs| && IsNoInterest(errs[i])
    case _ => false
  }

  predicate Uninterested(a: Answer) {
    a.Some? && IsNoInterest(a.value)
  }

  /** The errors that are left when those without interest are forgotten. */
  function Remaining(answers: seq<Answer>): seq<Err> {
    if answers == [] then []
    else
      var last := answers[|answers| - 1];
      Remaining(answers[..|answers| - 1]) + if last.Some? && !IsNoInterest(last.value) then [last.value] else []
  }

  function NonNil(answers: seq<Answer>): seq<Err> {
    if answers == [] then []
    else
      var last := answers[|answers| - 1];
      NonNil(answers[..|answers| - 1]) + if last.Some? then [last.value] else []
  }

  function Join(answers: seq<Answer>): Answer {
    if NonNil(answers) == [] then None else Some(Joined(NonNil(answers)))
  }

  /** No interest when nobody has any, otherwise the remaining errors. */
  function Verdict(answers: seq<Answer>): Answer {
    if forall i | 0 <= i < |answers| :: Uninterested(answers[i]) then Some(NoInterest)
    else if Remaining(answers) == [] then None
    else Some(Joined(Remaining(answers)))
  }

  /**
   Sends to every member once; answers[i] is what the i-th member's Send returns.
   */
  method Send(members: seq<nat>, typed: bool, closed: bool, answers: seq<Answer>) returns (verdict: Answer, offered: seq<nat>)
    requires |answers| == |members|
    ensures !typed ==> verdict == Some(InvalidType) && offered == []
    ensures typed && closed ==> verdict == Some(Closed) && offered == []
    ensures typed && !closed ==> verdict == Verdict(answers) && offered == members
  {
    if !typed {
      return Some(InvalidType), [];
    }
    if closed {
      return Some(Closed), [];
    }
    offered := [];
    var errs: seq<Answer> := [];
    var i := 0;
    while i < |members|
      invariant 0 <= i <= |members|
      invariant offered == members[..i] && errs == answers[..i]
    {
      offered := offered + [members[i]];
      errs := errs + [answers[i]];
      i := i + 1;
    }
    var noInterest := 0;
    i := 0;
    while i < |errs|
      invariant 0 <= i <= |errs| == |answers| && 0 <= noInterest <= i
      invariant noInterest == i <==> forall k | 0 <= k < i :: Uninterested(answers[k])
      invariant forall k | 0 <= k < i :: errs[k] == if Uninterested(answers[k]) then None else answers[k]
      invariant forall k | i <= k < |errs| :: errs[k] == answers[k]
    {
      if errs[i].Some? && IsNoInterest(errs[i].value) {
        noInterest := noInterest + 1;
        errs := errs[i := None];
      }
      i := i + 1;
    }
    if noInterest == |members| {
      return Some(NoInterest), offered;
    }
    NilledIsRemaining(errs, answers);
    verdict := Join(errs);
  }

  lemma {:induction false} NilledIsRemaining(errs: seq<Answer>, answers: seq<Answer>)
    requires |errs| == |answers|
    requires forall k | 0 <= k < |errs| :: errs[k] == if Uninterested(answers[k]) then None else answers[k]
    ensures NonNil(errs) == Remaining(answers)
  {
    if errs == [] {
    } else {
      NilledIsRemaining(errs[..|errs| - 1], answers[..|answers| - 1]);
    }
  }

  /** A joined error stands for no interest exactly when one of the plain errors inside it is that one. */
  lemma {:induction false} SearchesJoined(e: Err)
    ensures IsNoInterest(e) <==> NoInterest in Plain(e)
  {
    if e.Joined? { SearchesAll(e.errs); }
  }

  lemma {:induction false} SearchesAll(errs: seq<Err>)
    ensures (exists i :: 0 <= i < |errs| && IsNoInterest(errs[i])) <==> NoInterest in PlainAll(errs)
  {
    if errs == [] {
    } else {
      var n := |errs| - 1;
      SearchesAll(errs[..n]);
      SearchesJoined(errs[n]);
      assert forall i | 0 <= i < n :: errs[..n][i] == errs[i];
    }
  }

  /** Which answers are real failures: neither nil nor the plain lack of interest. */
  function Failed(answers: seq<Answer>): (flags: seq<bool>)
    ensures |flags| == |answers|
    ensures forall i | 0 <= i < |answers| :: flags[i] <==> answers[i].Some? && answers[i] != Some(NoInterest)
  {
    seq(|answers|, i requires 0 <= i < |answers| => answers[i].Some? && answers[i] != Some(NoInterest))
  }

  ghost predicate PlainAnswers(answers: seq<Answer>) {
    forall i | 0 <= i < |answers| :: answers[i].Some? ==> !answers[i].value.Joined?
  }

  lemma RemainingNext(answers: seq<Answer>)
    requires answers != [] && PlainAnswers(answers)
    ensures var n := |answers| - 1;
            Remaining(answers) == Remaining(answers[..n])
              + if answers[n].Some? && answers[n] != Some(NoInterest) then [answers[n].value] else []
  {
  }

  ghost predicate ErrorsAt(errs: seq<Err>, at: seq<nat>, answers: seq<Answer>) {
    |errs| == |at| && forall k | 0 <= k < |at| :: at[k] < |answers| && answers[at[k]] == Some(errs[k])
  }

  lemma ErrorsAtNext(errs: seq<Err>, at: seq<nat>, answers: seq<Answer>)
    requires answers != [] && ErrorsAt(errs, at, answers[..|answers| - 1])
    ensures ErrorsAt(errs, at, answers)
    ensures var n := |answers| - 1;
            answers[n].Some? ==> ErrorsAt(errs + [answers[n].value], at + [n], answers)
  {
  }

  lemma {:induction false} RemainingAt(answers: seq<Answer>) returns (at: seq<nat>)
    requires PlainAnswers(answers)
    ensures TrueAt(at, Failed(answers)) && ErrorsAt(Remaining(answers), at, answers)
  {
    if answers == [] {
      at := [];
    } else {
      var n := |answers| - 1;
      at := RemainingAt(answers[..n]);
      assert Failed(answers)[..n] == Failed(answers[..n]);
      TrueAtNext(at, Failed(answers));
      RemainingNext(answers);
      ErrorsAtNext(Remaining(answers[..n]), at, answers);
      if answers[n].Some? && answers[n] != Some(NoInterest) {
        at := at + [n];
      } else {
        assert Remaining(answers[..n]) + [] == Remaining(answers[..n]);
      }
    }
  }

  /**
   Members that answer plainly, closed ones included: no interest exactly when all say so, nil exactly
   when some took it and the others lack interest, else all other answers joined in member order.
   */
  lemma PlainVerdict(answers: seq<Answer>) returns (at: seq<nat>)
    requires PlainAnswers(answers)
    ensures TrueAt(at, Failed(answers))
    ensures Verdict(answers) == Some(NoInterest) <==> forall i | 0 <= i < |answers| :: answers[i] == Some(NoInterest)
    ensures Verdict(answers) == None <==>
              at == [] && exists i :: 0 <= i < |answers| && answers[i] == None
    ensures at != [] ==>
              && Verdict(answers).Some? && Verdict(answers).value.Joined? && |Verdict(answers).value.errs| == |at|
              && forall k | 0 <= k < |at| :: answers[at[k]] == Some(Verdict(answers).value.errs[k])
  {
    at := RemainingAt(answers);
    VerdictMeaning(answers);
    forall i | 0 <= i < |answers| ensures Uninterested(answers[i]) <==> answers[i] == Some(NoInterest) {}
    if at != [] {
      assert !Uninterested(answers[at[0]]) && |Remaining(answers)| > 0;
    }
  }

  // ---------------------------------------------------------------- trees of fan-outs

  datatype Tree = Leaf(answer: Answer) | Fan(children: seq<Tree>)

  function Answers(ts: seq<Tree>): (answers: seq<Answer>)
    ensures |answers| == |ts|
    ensures forall i | 0 <= i < |ts| :: answers[i] == Reply(ts[i])
    decreases ts, 0
  {
    if ts == [] then [] else [Reply(ts[0])] + Answers(ts[1..])
  }

  function Reply(t: Tree): Answer
    decreases t, 1
  {
    match t
    case Leaf(answer) => answer
    case Fan(children) => Verdict(Answers(children))
  }

  ghost predicate AllLeaves(t: Tree, p: Answer -> bool) {
    match t
    case Leaf(answer) => p(answer)
    case Fan(children) => forall i | 0 <= i < |children| :: AllLeaves(children[i], p)
  }

  ghost predicate SomeLeaf(t: Tree, p: Answer -> bool) {
    match t
    case Leaf(answer) => p(answer)
    case Fan(children) => exists i :: 0 <= i < |children| && SomeLeaf(children[i], p)
  }

  lemma {:induction false} RemainingAreInterested(answers: seq<Answer>)
    ensures forall i | 0 <= i < |Remaining(answers)| :: !IsNoInterest(Remaining(answers)[i])
    ensures Remaining(answers) == [] <==> forall i | 0 <= i < |answers| :: answers[i].None? || Uninterested(answers[i])
  {
    if answers == [] {
    } else {
      RemainingAreInterested(answers[..|answers| - 1]);
    }
  }

  lemma VerdictMeaning(answers: seq<Answer>)
    ensures Uninterested(Verdict(answers)) <==> forall i | 0 <= i < |answers| :: Uninterested(answers[i])
    ensures Verdict(answers) == None <==>
              && (exists i :: 0 <= i < |answers| && answers[i] == None)
              && (forall i | 0 <= i < |answers| :: answers[i] == None || Uninterested(answers[i]))
  {
    RemainingAreInterested(answers);
  }

  /** However fan-outs are nested, there is no interest exactly when no leaf has any. */
  lemma {:induction false} NoInterestIffNoLeafInterested(t: Tree)
    ensures Uninterested(Reply(t)) <==> AllLeaves(t, Uninterested)
  {
    if t.Fan? {
      VerdictMeaning(Answers(t.children));
      forall i | 0 <= i < |t.children| ensures Uninterested(Answers(t.children)[i]) <==> AllLeaves(t.children[i], Uninterested) {
        NoInterestIffNoLeafInterested(t.children[i]);
      }
    }
  }

  predicate Took(a: Answer) {
    a == None
  }

  predicate TookOrUninterested(a: Answer) {
    a == None || Uninterested(a)
  }

  lemma {:induction false} UninterestedOrTook(t: Tree)
    ensures AllLeaves(t, TookOrUninterested) <==> TookOrUninterested(Reply(t))
    ensures AllLeaves(t, TookOrUninterested) && SomeLeaf(t, Took) <==> Reply(t) == None
  {
    if t.Fan? {
      VerdictMeaning(Answers(t.children));
      forall i | 0 <= i < |t.children|
        ensures AllLeaves(t.children[i], TookOrUninterested) <==> TookOrUninterested(Answers(t.children)[i])
        ensures AllLeaves(t.children[i], TookOrUninterested) && SomeLeaf(t.children[i], Took) <==> Answers(t.children)[i] == None
      {
        UninterestedOrTook(t.children[i]);
      }
    }
  }

  /** A nested send succeeds exactly when some leaf took the message and no leaf failed. */
  lemma SucceedsIffTakenAndNoneFailed(t: Tree)
    ensures Reply(t) == None <==> SomeLeaf(t, Took) && AllLeaves(t, TookOrUninterested)
  {
    UninterestedOrTook(t);
  }

  /** The plain errors inside an error, in order. */
  function Plain(e: Err): seq<Err> {
    match e
    case Joined(errs) => PlainAll(errs)
    case _ => [e]
  }

  function PlainAll(errs: seq<Err>): seq<Err> {
    if errs == [] then [] else PlainAll(errs[..|errs| - 1]) + Plain(errs[|errs| - 1])
  }

  function Failures(a: Answer): seq<Err> {
    if a.None? || Uninterested(a) then [] else Plain(a.value)
  }

  function LeafFailures(t: Tree): seq<Err>
    decreases t, 1
  {
    match t
    case Leaf(answer) => Failures(answer)
    case Fan(children) => ChildFailures(children)
  }

  function ChildFailures(ts: seq<Tree>): seq<Err>
    decreases ts, 0
  {
    if ts == [] then [] else ChildFailures(ts[..|ts| - 1]) + LeafFailures(ts[|ts| - 1])
  }

  lemma VerdictFailures(answers: seq<Answer>)
    ensures Failures(Verdict(answers)) == PlainAll(Remaining(answers))
  {
    RemainingAreInterested(answers);
    if Remaining(answers) != [] {
      assert Verdict(answers) == Some(Joined(Remaining(answers)));
    } else {
      assert Verdict(answers) == None || Verdict(answers) == Some(NoInterest);
    }
  }

  /** A nested send reports exactly the failures of the leaves, in their order. */
  lemma {:induction false} ReportsEveryFailure(t: Tree)
    ensures Failures(Reply(t)) == LeafFailures(t)
    decreases t, 1
  {
    if t.Fan? {
      ChildrenReport(t.children);
      VerdictFailures(Answers(t.children));
    }
  }

  lemma {:induction false} ChildrenReport(ts: seq<Tree>)
    ensures PlainAll(Remaining(Answers(ts))) == ChildFailures(ts)
    decreases ts, 0
  {
    if ts == [] {
    } else {
      var n := |ts| - 1;
      ChildrenReport(ts[..n]);
      ReportsEveryFailure(ts[n]);
      assert Answers(ts)[..n] == Answers(ts[..n]);
      var front, last := Remaining(Answers(ts[..n])), Answers(ts)[n];
      assert last == Reply(ts[n]);
      if last.Some? && !IsNoInterest(last.value) {
        PlainAllAppend(front, last.value);
      } else {
        assert front + [] == front;
      }
    }
  }

  lemma PlainAllAppend(errs: seq<Err>, e: Err)
    ensures PlainAll(errs + [e]) == PlainAll(errs) + Plain(e)
  {
    assert (errs + [e])[..|errs|] == errs;
  }
}
