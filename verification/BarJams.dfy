/**
 * When the bar can come to a standstill with students still in it: every bartender waiting for a clean
 * cup, and every cup dirty, in a student's hand or in an action that no bartender is left to take.
 */
module BarJams {
  import opened Counting
  import opened Bar
  import BoundedBuffer

  /** Nobody can go on, and somebody has not gone home. */
  ghost predicate Jammed(s: State, c: Config) {
    && (exists k :: 0 <= k < |s.students| && !s.students[k].at.Gone?)
    && forall s' :: !Next(s, s', c)
  }

  /** The students who wait for drinks ordered before the k-th action, and the cups in hands and from it on. */
  function Ahead(s: State, k: nat): nat
    requires k <= |s.actions|
  {
    Count(s.bartenders, Making) + |s.drinks| + Count(s.actions[..k], IsOrder) +
    Count(s.actions[k..], InAction(Any)) + Count(s.students, InStudent(Any))
  }

  /** They are different students, and in the bar together when the k-th action, if it gives back a cup, was placed. */
  ghost predicate QueueOk(s: State, c: Config) {
    forall k :: 0 <= k < |s.actions| && s.actions[k].PutDrink? ==> Ahead(s, k) <= c.places
  }

  lemma {:induction false} CountBoth(t: seq<Student>)
    ensures Count(t, Thirsty) + Count(t, InStudent(Any)) <= Count(t, InBar)
  {
    if t != [] {
      CountBoth(t[1..]);
    }
  }

  /** One more action at the end. */
  lemma AheadAppend(q: seq<Action>, x: Action, k: nat)
    requires k <= |q|
    ensures Count((q + [x])[..k], IsOrder) == Count(q[..k], IsOrder)
    ensures Count((q + [x])[k..], InAction(Any)) == Count(q[k..], InAction(Any)) + Bit(x.PutDrink?)
  {
    assert (q + [x])[..k] == q[..k] && (q + [x])[k..] == q[k..] + [x];
    CountAppend(q[k..], InAction(Any), x);
  }

  /** One action fewer in front. */
  lemma AheadPop(q: seq<Action>, q': seq<Action>, k: nat)
    requires q != [] && BoundedBuffer.Pop(q, q', q[0]) && k <= |q'|
    ensures Count(q[..k + 1], IsOrder) == Count(q'[..k], IsOrder) + Bit(q[0].GetDrink?)
    ensures Count(q[k + 1..], InAction(Any)) == Count(q'[k..], InAction(Any))
  {
    var a := q[0];
    assert q == [a] + q';
    assert q[..k + 1][1..] == q'[..k] && q[k + 1..] == q'[k..];
  }

  lemma StudentQueue(s: State, s': State, c: Config, j: nat)
    requires Inv(s, c) && QueueOk(s, c) && j < |s.students| && StudentStep(s, s', c, j)
    ensures QueueOk(s', c)
  {
    hide Inv;
    hide Count;
    CountUpdate(s.students, InStudent(Any), j, s'.students[j]);
    if s.students[j].at.Receive? {
      CountPop(s.drinks, s'.drinks, Cup(Any));
    }
    forall k | 0 <= k < |s'.actions| && s'.actions[k].PutDrink? ensures Ahead(s', k) <= c.places {
      if s'.actions != s.actions {
        AheadAppend(s.actions, s'.actions[|s.actions|], k);
        if k == |s.actions| {
          LastPut(s, c);
        }
      }
    }
  }

  lemma LastPut(s: State, c: Config)
    requires Inv(s, c)
    ensures Ahead(s, |s.actions|) <= c.places
  {
    CountBoth(s.students);
    assert s.actions[..|s.actions|] == s.actions && s.actions[|s.actions|..] == [];
  }

  lemma BartenderQueue(s: State, s': State, c: Config, j: nat)
    requires QueueOk(s, c) && j < |s.bartenders| && BartenderStep(s, s', c, j)
    ensures QueueOk(s', c)
  {
    hide Count;
    CountUpdate(s.bartenders, Making, j, s'.bartenders[j]);
    if s.bartenders[j].Wait? {
      forall k | 0 <= k < |s'.actions| && s'.actions[k].PutDrink? ensures Ahead(s', k) <= c.places {
        AheadPop(s.actions, s'.actions, k);
        assert s.actions[k + 1] == s'.actions[k];
      }
    } else {
      assert s'.actions == s.actions;
    }
  }

  lemma {:induction false} RunQueue(run: seq<State>, c: Config, i: nat)
    requires Run(run, c) && i < |run|
    ensures QueueOk(run[i], c)
  {
    if i > 0 {
      var s, s' := run[i - 1], run[i];
      RunQueue(run, c, i - 1);
      RunSafe(run, c, i - 1);
      assert Next(s, s', c);
      hide Inv;
      hide QueueOk;
      hide StudentStep;
      hide BartenderStep;
      hide BoyStep;
      if j: nat :| j < |s.students| && StudentStep(s, s', c, j) {
        StudentQueue(s, s', c, j);
      } else if j: nat :| j < |s.bartenders| && BartenderStep(s, s', c, j) {
        BartenderQueue(s, s', c, j);
      } else {
        BoyQueue(s, s', c);
      }
    }
  }

  lemma BoyQueue(s: State, s': State, c: Config)
    requires QueueOk(s, c) && BoyStep(s, s', c)
    ensures QueueOk(s', c)
  {
    assert forall k :: 0 <= k <= |s.actions| ==> Ahead(s', k) == Ahead(s, k);
  }

  /** What a student who cannot go on waits for. */
  ghost predicate StudentWaits(s: State, c: Config, t: Student) {
    match t.at
    case Enter => s.bouncer <= 0
    case Order => t.i < t.tid % 5 && |s.actions| >= c.a
    case Receive => s.drinks == []
    case GiveBack(_) => |s.actions| >= c.a
    case Gone => true
  }

  lemma StudentStuck(s: State, c: Config, k: nat)
    requires k < |s.students| && forall s' :: !Next(s, s', c)
    ensures StudentWaits(s, c, s.students[k])
  {
    var me := s.students[k];
    var s' := match me.at
      case Enter => Stride(s, k, 0, Order).(bouncer := s.bouncer - 1)
      case Order =>
        if me.i < me.tid % 5 then Stride(s, k, me.i, Receive).(actions := s.actions + [GetDrink(me.tid)])
        else Stride(s, k, me.i, Gone).(bouncer := s.bouncer + 1)
      case Receive =>
        if s.drinks == [] then s else Stride(s, k, me.i, GiveBack(s.drinks[0])).(drinks := s.drinks[1..])
      case GiveBack(cup) => Stride(s, k, me.i + 1, Order).(actions := s.actions + [PutDrink(me.tid, cup)])
      case Gone => s;
    assert !StudentStep(s, s', c, k) by {
      assert !Next(s, s', c);
    }
  }

  /** What a bartender who cannot go on waits for. */
  ghost predicate BartenderWaits(s: State, c: Config, b: Bartender) {
    (b.Wait? && s.actions == []) || (b.Fetch? && s.clean == []) || (b.Serve? && |s.drinks| >= c.a)
  }

  lemma BartenderStuck(s: State, c: Config, k: nat)
    requires Inv(s, c) && k < |s.bartenders| && forall s' :: !Next(s, s', c)
    ensures BartenderWaits(s, c, s.bartenders[k])
  {
    Orderly(s, c);
    hide Inv;
    assert Announced(s, c, |s.dirty|);
    var s' := match s.bartenders[k]
      case Wait =>
        if s.actions == [] then s
        else
          Attend(s, k, if s.actions[0].GetDrink? then Fetch else Return(s.actions[0].cup)).(actions := s.actions[1..])
      case Fetch => if s.clean == [] then s else Attend(s, k, Serve(s.clean[0])).(clean := s.clean[1..])
      case Serve(cup) => Attend(s, k, Wait).(drinks := s.drinks + [cup])
      case Return(cup) => Attend(s, k, Look).(dirty := s.dirty + [cup])
      case Look => Attend(s, k, if c.cups > 0 && 10 * |s.dirty| >= 6 * c.cups then Call else Wait)
      case Call => Attend(s, k, Wait).(cupsem := 1);
    assert !BartenderStep(s, s', c, k) by {
      assert !Next(s, s', c);
    }
  }

  lemma BoyStuck(s: State, c: Config)
    requires Inv(s, c) && forall s' :: !Next(s, s', c)
    ensures s.boy.Doze? && s.cupsem == 0
  {
    Orderly(s, c);
    hide Inv;
    assert Announced(s, c, |s.dirty|);
    var s' := match s.boy
      case Read => s.(boy := Wash(0, |s.dirty|))
      case Wash(i, n) =>
        if i < n && s.dirty != [] then s.(boy := Shelve(i, n, s.dirty[0]), dirty := s.dirty[1..]) else s.(boy := Doze)
      case Shelve(i, n, cup) => s.(boy := Wash(i + 1, n), clean := s.clean + [cup])
      case Doze => s.(boy := Read, cupsem := 0);
    assert !BoyStep(s, s', c) by {
      assert !Next(s, s', c);
    }
  }

  lemma {:induction false} CountAllOf<T>(q: seq<T>, f: T -> bool)
    requires forall k :: 0 <= k < |q| ==> f(q[k])
    ensures Count(q, f) == |q|
  {
    if q != [] {
      CountAllOf(q[1..], f);
    }
  }

  /** A positive count has a first one. */
  lemma {:induction false} FirstOf<T>(q: seq<T>, f: T -> bool) returns (k: nat)
    requires Count(q, f) > 0
    ensures k < |q| && f(q[k]) && Count(q[k..], f) == Count(q, f)
  {
    if f(q[0]) {
      k := 0;
    } else {
      k := FirstOf(q[1..], f);
      k := k + 1;
      assert q[1..][k - 1..] == q[k..];
    }
  }

  /** Nobody waits for a drink that is there, so no drink is there. */
  lemma NoDrinks(s: State, c: Config)
    requires Inv(s, c) && c.a > 0 && forall k :: 0 <= k < |s.students| ==> StudentWaits(s, c, s.students[k])
    ensures s.drinks == []
  {
    if s.drinks != [] {
      CountNone(s.students, Thirsty);
    }
  }

  /** With a bartender to spare every action is taken, and then all cups are dirty. */
  lemma SomeWait(s: State, c: Config, b: nat)
    requires Inv(s, c) && CalledOk(s, c) && c.a > 0 && c.cups > 0 && c.places > 0 && s.boy.Doze? && s.cupsem == 0
    requires forall k :: 0 <= k < |s.students| ==> StudentWaits(s, c, s.students[k])
    requires forall k :: 0 <= k < |s.bartenders| ==> BartenderWaits(s, c, s.bartenders[k])
    requires b < |s.bartenders| && s.bartenders[b].Wait?
    ensures forall k :: 0 <= k < |s.students| ==> s.students[k].at.Gone?
  {
    NoDrinks(s, c);
    CountNone(s.students, InStudent(Any));
    CountNone(s.bartenders, InBartender(Any));
    CountAll(s.clean);
    CountAll(s.dirty);
    assert |s.clean| + |s.dirty| == c.cups;
    CountNone(s.bartenders, Making);
    assert Count(s.students, Thirsty) == 0;
    forall k | 0 <= k < |s.students| ensures !InBar(s.students[k]) {
      if s.students[k].at.Receive? {
        CountMember(s.students, Thirsty, k);
      }
    }
    CountNone(s.students, InBar);
  }

  /** With none to spare they wait for as many students as they are, and the clean cups' holders are others. */
  lemma AllFetch(s: State, c: Config)
    requires Inv(s, c) && QueueOk(s, c) && s.boy.Doze? && s.drinks == []
    requires |s.bartenders| > 0 && forall k :: 0 <= k < |s.bartenders| ==> s.bartenders[k].Fetch?
    requires s.clean == []
    ensures |s.bartenders| + c.cups - |s.dirty| <= c.places
  {
    CountAllOf(s.bartenders, Making);
    CountNone(s.bartenders, InBartender(Any));
    CountAll(s.dirty);
    CountBoth(s.students);
    var puts := Count(s.actions, InAction(Any));
    assert Count(s.students, InStudent(Any)) + puts + |s.dirty| == c.cups;
    if puts > 0 {
      var k := FirstOf(s.actions, InAction(Any));
      assert Ahead(s, k) <= c.places;
    }
  }

  /** If students are left then there are enough places for a jam. */
  lemma JamNeeds(s: State, c: Config)
    requires Inv(s, c) && QueueOk(s, c) && CalledOk(s, c) && Jammed(s, c)
    requires c.a > 0 && c.cups > 0 && c.places > 0 && |s.bartenders| > 0
    ensures 10 * c.places > 10 * |s.bartenders| + 4 * c.cups
  {
    forall k | 0 <= k < |s.students| ensures StudentWaits(s, c, s.students[k]) {
      StudentStuck(s, c, k);
    }
    forall k | 0 <= k < |s.bartenders| ensures BartenderWaits(s, c, s.bartenders[k]) {
      BartenderStuck(s, c, k);
    }
    BoyStuck(s, c);
    hide Inv;
    NoDrinks(s, c);
    if b :| 0 <= b < |s.bartenders| && s.bartenders[b].Wait? {
      SomeWait(s, c, b);
    } else {
      assert s.bartenders[0].Fetch?;
      AllFetch(s, c);
    }
  }

  /** In no run, with the full semaphore exact, does a bar jam that has few places for its bartenders and cups. */
  lemma NeverJams(run: seq<State>, c: Config, i: nat)
    requires Run(run, c) && c.exact && i < |run| && c.a > 0 && c.cups > 0 && c.places > 0
    requires |run[i].bartenders| > 0 && 10 * c.places <= 10 * |run[i].bartenders| + 4 * c.cups
    ensures !Jammed(run[i], c)
  {
    RunSafe(run, c, i);
    RunQueue(run, c, i);
    RunCalls(run, c, i);
    hide Inv;
    hide QueueOk;
    hide CalledOk;
    hide Jammed;
    if Jammed(run[i], c) {
      JamNeeds(run[i], c);
    }
  }

  /** Some run comes to s. */
  ghost predicate Reached(s: State, c: Config) { exists run: seq<State> :: RunTo(run, c, s) }

  ghost predicate RunTo(run: seq<State>, c: Config, s: State) { Run(run, c) && run[|run| - 1] == s }

  lemma OneMore(s: State, s': State, c: Config)
    requires Reached(s, c) && Next(s, s', c)
    ensures Reached(s', c)
  {
    hide Next;
    var run: seq<State> :| RunTo(run, c, s);
    assert RunTo(run + [s'], c, s');
  }

  lemma StudentGoes(s: State, s': State, c: Config, k: nat)
    requires Reached(s, c) && k < |s.students| && StudentStep(s, s', c, k)
    ensures Reached(s', c)
  {
    hide StudentStep;
    hide Reached;
    OneMore(s, s', c);
  }

  lemma BartenderGoes(s: State, s': State, c: Config, k: nat)
    requires Reached(s, c) && k < |s.bartenders| && BartenderStep(s, s', c, k)
    ensures Reached(s', c)
  {
    hide BartenderStep;
    hide Reached;
    OneMore(s, s', c);
  }

  lemma BoyGoes(s: State, s': State, c: Config)
    requires Reached(s, c) && BoyStep(s, s', c)
    ensures Reached(s', c)
  {
    hide BoyStep;
    hide Reached;
    OneMore(s, s', c);
  }

  /** Students with one drink each: the first g have gone, up to h they have cups, up to r they wait for drinks. */
  function Guest(k: nat, g: nat, h: nat, r: nat): Student {
    var at := if k < g then Gone else if k < h then GiveBack(k) else if k < r then Receive else Enter;
    Student(5 * k + 1, if k < g then 1 else 0, at)
  }

  function Guests(n: nat, g: nat, h: nat, r: nat): seq<Student> { seq(n, k requires 0 <= k => Guest(k, g, h, r)) }

  function Staff(b: nat, f: nat): seq<Bartender> { seq(b, k => if k < f then Fetch else Wait) }

  function Cups(lo: nat, hi: nat): seq<int>
    requires lo <= hi
  {
    seq(hi - lo, k => lo + k)
  }

  function Puts(lo: nat, hi: nat): seq<Action>
    requires lo <= hi
  {
    seq(hi - lo, k requires 0 <= k => PutDrink(5 * (lo + k) + 1, lo + k))
  }

  /**
   * The bar with n students and b bartenders of whom f have taken orders; the first d cups are dirty, and
   * those from d up to g lie in actions.
   */
  function Scene(c: Config, n: nat, b: nat, d: nat, g: nat, h: nat, r: nat, f: nat): State
    requires d <= g <= h <= c.cups && g <= r <= n
  {
    State(Guests(n, g, h, r), Staff(b, f), Doze, Puts(d, g), [], Cups(h, c.cups), Cups(0, d), c.places - (r - g), 0)
  }

  lemma Opened(c: Config, n: nat, b: nat)
    ensures Reached(Scene(c, n, b, 0, 0, 0, 0, 0), c)
  {
    var s := Scene(c, n, b, 0, 0, 0, 0, 0);
    var s0 := s.(boy := Read, cupsem := 1);
    assert s0.clean == AllCups(c.cups);
    assert RunTo([s0], c, s0);
    hide Reached;
    BoyReads(s0, c);
    BoyGoes(s0.(boy := Doze), s0.(boy := Read, cupsem := 0), c);
    BoyReads(s0.(cupsem := 0), c);
  }

  /** With nothing to wash he dozes off. */
  lemma BoyReads(s: State, c: Config)
    requires Reached(s, c) && s.boy.Read? && s.dirty == []
    ensures Reached(s.(boy := Doze), c)
  {
    hide Reached;
    assert Announced(s, c, 0);
    BoyGoes(s, s.(boy := Wash(0, 0)), c);
    BoyGoes(s.(boy := Wash(0, 0)), s.(boy := Doze), c);
  }

  /** Student k comes in and orders, and bartender j takes the order. */
  lemma Orders(s: State, c: Config, k: nat, j: nat)
    requires Reached(s, c) && k < |s.students| && j < |s.bartenders| && s.bartenders[j].Wait?
    requires s.students[k].at.Enter? && s.students[k].tid % 5 > 0 && s.bouncer > 0 && s.actions == [] && c.a > 0
    ensures Reached(Attend(Stride(s, k, 0, Receive), j, Fetch).(bouncer := s.bouncer - 1), c)
  {
    hide Reached;
    var s1 := Stride(s, k, 0, Order).(bouncer := s.bouncer - 1);
    var s2 := Stride(s1, k, 0, Receive).(actions := [GetDrink(s.students[k].tid)]);
    StudentGoes(s, s1, c, k);
    StudentGoes(s1, s2, c, k);
    var s3 := Attend(s2, j, Fetch).(actions := []);
    assert [GetDrink(s.students[k].tid)] == [GetDrink(s.students[k].tid)] + [];
    BartenderGoes(s2, s3, c, j);
    assert s3 == Attend(Stride(s, k, 0, Receive), j, Fetch).(bouncer := s.bouncer - 1);
  }

  /** Bartender j serves, and student k has the drink. */
  lemma Serves(s: State, c: Config, k: nat, j: nat)
    requires Reached(s, c) && k < |s.students| && j < |s.bartenders| && s.bartenders[j].Fetch?
    requires s.students[k].at.Receive? && s.clean != [] && s.drinks == [] && c.a > 0
    ensures Reached(
      Attend(Stride(s, k, s.students[k].i, GiveBack(s.clean[0])), j, Wait).(clean := s.clean[1..]), c)
  {
    hide Reached;
    var cup := s.clean[0];
    assert s.clean == [cup] + s.clean[1..];
    var s1 := Attend(s, j, Serve(cup)).(clean := s.clean[1..]);
    var s2 := Attend(s1, j, Wait).(drinks := [cup]);
    BartenderGoes(s, s1, c, j);
    BartenderGoes(s1, s2, c, j);
    var s3 := Stride(s2, k, s.students[k].i, GiveBack(cup)).(drinks := []);
    assert [cup] == [cup] + [];
    StudentGoes(s2, s3, c, k);
    assert s3 == Attend(Stride(s, k, s.students[k].i, GiveBack(cup)), j, Wait).(clean := s.clean[1..]);
  }

  /** Student k, after the last drink, gives the cup back and goes home. */
  lemma Leaves(s: State, c: Config, k: nat)
    requires Reached(s, c) && k < |s.students| && s.students[k].at.GiveBack? && |s.actions| < c.a
    requires s.students[k].i + 1 == s.students[k].tid % 5
    ensures
      var me := s.students[k];
      Reached(Stride(s, k, me.i + 1, Gone).(
        actions := s.actions + [PutDrink(me.tid, me.at.cup)], bouncer := s.bouncer + 1), c)
  {
    hide Reached;
    var me := s.students[k];
    var s1 := Stride(s, k, me.i + 1, Order).(actions := s.actions + [PutDrink(me.tid, me.at.cup)]);
    var s2 := Stride(s1, k, me.i + 1, Gone).(bouncer := s.bouncer + 1);
    StudentGoes(s, s1, c, k);
    StudentGoes(s1, s2, c, k);
    assert s2 == Stride(s, k, me.i + 1, Gone).(actions := s1.actions, bouncer := s.bouncer + 1);
  }

  /** Bartender j takes the cup, and sees no need to call. */
  lemma PutsAway(s: State, c: Config, j: nat, tid: nat, cup: int)
    requires Reached(s, c) && j < |s.bartenders| && s.bartenders[j].Wait? && s.actions == [PutDrink(tid, cup)]
    requires |s.dirty| < c.cups && 10 * (|s.dirty| + 1) < 6 * c.cups
    ensures Reached(s.(actions := [], dirty := s.dirty + [cup]), c)
  {
    hide Reached;
    var s1 := Attend(s, j, Return(cup)).(actions := []);
    assert s.actions == [PutDrink(tid, cup)] + [];
    BartenderGoes(s, s1, c, j);
    var s2 := Attend(s1, j, Look).(dirty := s.dirty + [cup]);
    BartenderGoes(s1, s2, c, j);
    assert Announced(s2, c, |s2.dirty|);
    var s3 := Attend(s2, j, Wait);
    BartenderGoes(s2, s3, c, j);
    assert s3 == s.(actions := [], dirty := s.dirty + [cup]);
  }

  lemma Share(k: nat)
    ensures (5 * k + 1) % 5 == 1
  {
  }

  /** One student more has a cup. */
  lemma Drinking(c: Config, n: nat, b: nat, d: nat, h: nat)
    requires d <= h < c.cups && h < n && b > 0 && c.a > 0 && h - d < c.places
    requires Reached(Scene(c, n, b, d, d, h, h, 0), c)
    ensures Reached(Scene(c, n, b, d, d, h + 1, h + 1, 0), c)
  {
    hide Reached;
    var s := Scene(c, n, b, d, d, h, h, 0);
    Share(h);
    Orders(s, c, h, 0);
    var s1 := Attend(Stride(s, h, 0, Receive), 0, Fetch).(bouncer := s.bouncer - 1);
    Serves(s1, c, h, 0);
    var s2 := Attend(Stride(s1, h, 0, GiveBack(h)), 0, Wait).(clean := s.clean[1..]);
    assert s2 == Scene(c, n, b, d, d, h + 1, h + 1, 0);
  }

  /** One cup more is dirty. */
  lemma Soiled(c: Config, n: nat, b: nat, d: nat)
    requires d < c.cups && d < n && b > 0 && c.a > 0 && c.places > 0 && 10 * (d + 1) < 6 * c.cups
    requires Reached(Scene(c, n, b, d, d, d, d, 0), c)
    ensures Reached(Scene(c, n, b, d + 1, d + 1, d + 1, d + 1, 0), c)
  {
    hide Reached;
    Drinking(c, n, b, d, d);
    var s := Scene(c, n, b, d, d, d + 1, d + 1, 0);
    Share(d);
    Leaves(s, c, d);
    var s1 := Stride(s, d, 1, Gone).(actions := [PutDrink(5 * d + 1, d)], bouncer := s.bouncer + 1);
    assert s.actions + [PutDrink(5 * d + 1, d)] == s1.actions;
    PutsAway(s1, c, 0, 5 * d + 1, d);
    assert s1.(actions := [], dirty := s1.dirty + [d]) == Scene(c, n, b, d + 1, d + 1, d + 1, d + 1, 0);
  }

  /** One bartender more waits for a clean cup. */
  lemma Waiting(c: Config, n: nat, b: nat, d: nat, f: nat)
    requires d <= c.cups && c.cups + f < n && f < b && c.a > 0 && c.cups - d + f < c.places
    requires Reached(Scene(c, n, b, d, d, c.cups, c.cups + f, f), c)
    ensures Reached(Scene(c, n, b, d, d, c.cups, c.cups + f + 1, f + 1), c)
  {
    hide Reached;
    var s := Scene(c, n, b, d, d, c.cups, c.cups + f, f);
    Share(c.cups + f);
    Orders(s, c, c.cups + f, f);
    var s1 := Attend(Stride(s, c.cups + f, 0, Receive), f, Fetch).(bouncer := s.bouncer - 1);
    assert s1 == Scene(c, n, b, d, d, c.cups, c.cups + f + 1, f + 1);
  }

  /** One cup more lies in an action that nobody takes. */
  lemma Stranded(c: Config, n: nat, b: nat, d: nat, g: nat)
    requires d <= g < c.cups && n == c.cups + b && g - d < c.a
    requires Reached(Scene(c, n, b, d, g, c.cups, n, b), c)
    ensures Reached(Scene(c, n, b, d, g + 1, c.cups, n, b), c)
  {
    hide Reached;
    var s := Scene(c, n, b, d, g, c.cups, n, b);
    Share(g);
    Leaves(s, c, g);
    var s1 := Stride(s, g, 1, Gone).(actions := s.actions + [PutDrink(5 * g + 1, g)], bouncer := s.bouncer + 1);
    assert s1 == Scene(c, n, b, d, g + 1, c.cups, n, b);
  }

  lemma {:induction false} AllSoiled(c: Config, n: nat, b: nat, d: nat)
    requires d <= c.cups <= n && b > 0 && c.a > 0 && c.places > 0 && 10 * d < 6 * c.cups
    ensures Reached(Scene(c, n, b, d, d, d, d, 0), c)
    decreases d
  {
    hide Reached;
    if d == 0 {
      Opened(c, n, b);
    } else {
      AllSoiled(c, n, b, d - 1);
      Soiled(c, n, b, d - 1);
    }
  }

  lemma {:induction false} AllDrinking(c: Config, n: nat, b: nat, d: nat, h: nat)
    requires d <= h <= c.cups <= n && b > 0 && c.a > 0 && 10 * d < 6 * c.cups && h - d <= c.places && c.places > 0
    ensures Reached(Scene(c, n, b, d, d, h, h, 0), c)
    decreases h
  {
    hide Reached;
    if h == d {
      AllSoiled(c, n, b, d);
    } else {
      AllDrinking(c, n, b, d, h - 1);
      Drinking(c, n, b, d, h - 1);
    }
  }

  lemma {:induction false} AllWaiting(c: Config, n: nat, b: nat, d: nat, f: nat)
    requires d <= c.cups && n == c.cups + b && f <= b && b > 0 && c.a > 0 && 10 * d < 6 * c.cups
    requires c.cups - d + b <= c.places
    ensures Reached(Scene(c, n, b, d, d, c.cups, c.cups + f, f), c)
    decreases f
  {
    hide Reached;
    if f == 0 {
      AllDrinking(c, n, b, d, c.cups);
    } else {
      AllWaiting(c, n, b, d, f - 1);
      Waiting(c, n, b, d, f - 1);
    }
  }

  lemma {:induction false} AllStranded(c: Config, n: nat, b: nat, d: nat, g: nat)
    requires d <= g <= c.cups && n == c.cups + b && b > 0 && c.a > 0 && 10 * d < 6 * c.cups && g - d <= c.a
    requires c.cups - d + b <= c.places
    ensures Reached(Scene(c, n, b, d, g, c.cups, n, b), c)
    decreases g
  {
    hide Reached;
    if g == d {
      AllWaiting(c, n, b, d, b);
    } else {
      AllStranded(c, n, b, d, g - 1);
      Stranded(c, n, b, d, g - 1);
    }
  }

  /** With every cup out of reach that is the end. */
  lemma SceneJams(c: Config, n: nat, b: nat, d: nat, g: nat)
    requires d <= g <= c.cups && n == c.cups + b && b > 0 && c.a > 0 && (g == c.cups || g - d >= c.a)
    ensures Jammed(Scene(c, n, b, d, g, c.cups, n, b), c)
  {
    var s := Scene(c, n, b, d, g, c.cups, n, b);
    assert s.students[n - 1].at.Receive?;
    forall s' ensures !Next(s, s', c) {
    }
  }

  /** Any other bar can: some run of it, with some students, comes to a jam. */
  lemma CanJam(c: Config, b: nat) returns (run: seq<State>)
    requires c.a > 0 && c.cups > 0 && b > 0 && 10 * c.places > 10 * b + 4 * c.cups
    ensures Run(run, c) && |run[0].bartenders| == |run[|run| - 1].bartenders| == b && Jammed(run[|run| - 1], c)
  {
    hide Jammed;
    var d := if c.places >= b + c.cups then 0 else b + c.cups - c.places;
    var g := if c.cups - d <= c.a then c.cups else d + c.a;
    var n := c.cups + b;
    AllStranded(c, n, b, d, g);
    SceneJams(c, n, b, d, g);
    run :| RunTo(run, c, Scene(c, n, b, d, g, c.cups, n, b));
    SameStaff(run, c, |run| - 1);
  }

  lemma {:induction false} SameStaff(run: seq<State>, c: Config, i: nat)
    requires Run(run, c) && i < |run|
    ensures |run[i].bartenders| == |run[0].bartenders|
  {
    if i > 0 {
      SameStaff(run, c, i - 1);
      assert Next(run[i - 1], run[i], c);
    }
  }

  /** A run of a bar with b bartenders that ends in a jam. */
  ghost predicate JamRun(run: seq<State>, c: Config, b: nat) {
    Run(run, c) && |run[|run| - 1].bartenders| == b && Jammed(run[|run| - 1], c)
  }

  lemma JamReached(s: State, c: Config, b: nat)
    requires Reached(s, c) && Jammed(s, c) && |s.bartenders| == b
    ensures exists run: seq<State> :: JamRun(run, c, b)
  {
    hide Jammed;
    var run: seq<State> :| RunTo(run, c, s);
    assert JamRun(run, c, b);
  }

  /** Without places, bartenders, cups or room for an action the first student waits for ever. */
  lemma OneWaits(c: Config, b: nat)
    requires c.a == 0 || c.cups == 0 || c.places == 0 || b == 0
    ensures exists run: seq<State> :: JamRun(run, c, b)
  {
    hide Reached;
    var s := Scene(c, 1, b, 0, 0, 0, 0, 0);
    Opened(c, 1, b);
    Share(0);
    if c.places > 0 {
      var s1 := Stride(s, 0, 0, Order).(bouncer := s.bouncer - 1);
      var s2 := Stride(s1, 0, 0, Receive).(actions := [GetDrink(1)]);
      if c.a == 0 {
        StudentGoes(s, s1, c, 0);
        s := s1;
      } else if b == 0 {
        StudentGoes(s, s1, c, 0);
        StudentGoes(s1, s2, c, 0);
        s := s2;
      } else {
        Orders(s, c, 0, 0);
        s := Attend(Stride(s, 0, 0, Receive), 0, Fetch).(bouncer := s.bouncer - 1);
      }
    }
    assert !s.students[0].at.Gone?;
    forall s' ensures !Next(s, s', c) {
    }
    JamReached(s, c, b);
  }

  /**
   * A bar, with the full semaphore exact, can jam exactly if something is missing altogether, or if ten
   * times its places are more than ten times its bartenders and four times its cups.
   */
  lemma JamsExactly(c: Config, b: nat)
    requires c.exact
    ensures
      (exists run: seq<State> :: JamRun(run, c, b)) <==>
      c.a == 0 || c.cups == 0 || c.places == 0 || b == 0 || 10 * c.places > 10 * b + 4 * c.cups
  {
    hide Jammed;
    if c.a == 0 || c.cups == 0 || c.places == 0 || b == 0 {
      OneWaits(c, b);
    } else if 10 * c.places > 10 * b + 4 * c.cups {
      var run := CanJam(c, b);
      assert JamRun(run, c, b);
    } else if run: seq<State> :| JamRun(run, c, b) {
      NeverJams(run, c, |run| - 1);
    }
  }

  /** The shipped configuration has 4 places, 9 actions, 15 cups and 2 bartenders. */
  lemma ShippedNeverJams(run: seq<State>, i: nat)
    requires Run(run, Config(4, 9, 15, true)) && i < |run| && |run[0].bartenders| == 2
    ensures !Jammed(run[i], Config(4, 9, 15, true))
  {
    SameStaff(run, Config(4, 9, 15, true), i);
    NeverJams(run, Config(4, 9, 15, true), i);
  }
}
