/**
 * The bar: students order, drink and give the cup back through a buffer of actions, bartenders
 * serve them, a cup boy washes. Any number of students and bartenders, any capacities, any
 * interleaving; the buffers and the bouncer's semaphore act atomically. Cups are their numbers.
 */
module Bar {
  import opened Semaphores
  import opened Counting
  import BoundedBuffer

  datatype Action = GetDrink(tid: nat) | PutDrink(tid: nat, cup: int)

  /** i counts the drinks the student has had; the name of at is what it does next. */
  datatype StudentPc = Enter | Order | Receive | GiveBack(cup: int) | Gone

  datatype Student = Student(tid: nat, i: nat, at: StudentPc)

  datatype Bartender = Wait | Fetch | Serve(cup: int) | Return(cup: int) | Look | Call

  datatype CupBoy = Read | Wash(i: nat, n: nat) | Shelve(i: nat, n: nat, cup: int) | Doze

  datatype State = State(
    students: seq<Student>, bartenders: seq<Bartender>, boy: CupBoy,
    actions: seq<Action>, drinks: seq<int>, clean: seq<int>, dirty: seq<int>,
    bouncer: int, cupsem: int)

  /**
   * The configuration: M places, A places in the action and drink buffers, C cups; and whether a
   * full semaphore always shows just how many items there are.
   */
  datatype Config = Config(places: nat, a: nat, cups: nat, exact: bool)

  function AllCups(n: nat): seq<int> { seq(n, k => k) }

  /** What main leaves when the threads start: every cup clean. */
  ghost predicate Init(s: State, c: Config) {
    && (forall k :: 0 <= k < |s.students| ==> s.students[k].i == 0 && s.students[k].at == Enter)
    && (forall k :: 0 <= k < |s.bartenders| ==> s.bartenders[k] == Wait)
    && s.boy == Read && s.actions == [] && s.drinks == [] && s.dirty == []
    && s.clean == AllCups(c.cups)
    && s.bouncer == c.places && s.cupsem == 1
  }

  /** Student k goes to at, having had i drinks. */
  function Stride(s: State, k: nat, i: nat, at: StudentPc): State
    requires k < |s.students|
  {
    s.(students := s.students[k := s.students[k].(i := i, at := at)])
  }

  ghost predicate StudentStep(s: State, s': State, c: Config, k: nat)
    requires k < |s.students|
  {
    var me := s.students[k];
    match me.at
    case Enter => Down(s.bouncer, s'.bouncer) && s' == Stride(s, k, 0, Order).(bouncer := s'.bouncer)
    case Order =>
      if me.i < me.tid % 5 then
        && BoundedBuffer.Put(s.actions, s'.actions, c.a, GetDrink(me.tid))
        && s' == Stride(s, k, me.i, Receive).(actions := s'.actions)
      else
        Up(s.bouncer, s'.bouncer) && s' == Stride(s, k, me.i, Gone).(bouncer := s'.bouncer)
    case Receive =>
      && s.drinks != [] && BoundedBuffer.Pop(s.drinks, s'.drinks, s.drinks[0])
      && s' == Stride(s, k, me.i, GiveBack(s.drinks[0])).(drinks := s'.drinks)
    case GiveBack(cup) =>
      && BoundedBuffer.Put(s.actions, s'.actions, c.a, PutDrink(me.tid, cup))
      && s' == Stride(s, k, me.i + 1, Order).(actions := s'.actions)
    case Gone => false
  }

  function Attend(s: State, k: nat, b: Bartender): State
    requires k < |s.bartenders|
  {
    s.(bartenders := s.bartenders[k := b])
  }

  ghost predicate BartenderStep(s: State, s': State, c: Config, k: nat)
    requires k < |s.bartenders|
  {
    match s.bartenders[k]
    case Wait =>
      && s.actions != [] && BoundedBuffer.Pop(s.actions, s'.actions, s.actions[0])
      && s' == Attend(s, k, if s.actions[0].GetDrink? then Fetch else Return(s.actions[0].cup)).(actions := s'.actions)
    case Fetch =>
      && s.clean != [] && BoundedBuffer.Pop(s.clean, s'.clean, s.clean[0])
      && s' == Attend(s, k, Serve(s.clean[0])).(clean := s'.clean)
    case Serve(cup) =>
      && BoundedBuffer.Put(s.drinks, s'.drinks, c.a, cup)
      && s' == Attend(s, k, Wait).(drinks := s'.drinks)
    case Return(cup) =>
      && BoundedBuffer.Put(s.dirty, s'.dirty, c.cups, cup)
      && s' == Attend(s, k, Look).(dirty := s'.dirty)
    case Look =>
      exists n: nat ::
        Announced(s, c, n) && s' == Attend(s, k, if c.cups > 0 && 10 * n >= 6 * c.cups then Call else Wait)
    case Call => BinaryUp(s.cupsem, s'.cupsem) && s' == Attend(s, k, Wait).(cupsem := s'.cupsem)
  }

  /** A value the dirty buffer's full semaphore may show: items stored but not announced are not in it. */
  ghost predicate Announced(s: State, c: Config, n: nat) { n <= |s.dirty| && (c.exact ==> n == |s.dirty|) }

  ghost predicate BoyStep(s: State, s': State, c: Config) {
    match s.boy
    case Read => exists n: nat :: Announced(s, c, n) && s' == s.(boy := Wash(0, n))
    case Wash(i, n) =>
      if i < n then
        && s.dirty != [] && BoundedBuffer.Pop(s.dirty, s'.dirty, s.dirty[0])
        && s' == s.(boy := Shelve(i, n, s.dirty[0]), dirty := s'.dirty)
      else
        s' == s.(boy := Doze)
    case Shelve(i, n, cup) =>
      && BoundedBuffer.Put(s.clean, s'.clean, c.cups, cup)
      && s' == s.(boy := Wash(i + 1, n), clean := s'.clean)
    case Doze => BinaryDown(s.cupsem, s'.cupsem) && s' == s.(boy := Read, cupsem := s'.cupsem)
  }

  ghost predicate Next(s: State, s': State, c: Config) {
    || (exists k: nat :: k < |s.students| && StudentStep(s, s', c, k))
    || (exists k: nat :: k < |s.bartenders| && BartenderStep(s, s', c, k))
    || BoyStep(s, s', c)
  }

  ghost predicate Run(run: seq<State>, c: Config) {
    && |run| > 0 && Init(run[0], c)
    && forall i :: 0 <= i < |run| - 1 ==> Next(run[i], run[i + 1], c)
  }

  /** Either all cups, or the one with a given number. */
  datatype Which = Any | Only(cup: int)

  predicate Is(w: Which, cup: int) { w.Any? || cup == w.cup }

  function Cup(w: Which): int -> bool { (cup: int) => Is(w, cup) }

  function InStudent(w: Which): Student -> bool { (t: Student) => t.at.GiveBack? && Is(w, t.at.cup) }

  function InBartender(w: Which): Bartender -> bool { (b: Bartender) => (b.Serve? || b.Return?) && Is(w, b.cup) }

  function InAction(w: Which): Action -> bool { (a: Action) => a.PutDrink? && Is(w, a.cup) }

  predicate InBoy(w: Which, b: CupBoy) { b.Shelve? && Is(w, b.cup) }

  /** How many cups are in a buffer, in an action that gives one back, or in somebody's hand. */
  function Places(s: State, w: Which): nat {
    Count(s.students, InStudent(w)) + Count(s.bartenders, InBartender(w)) + Bit(InBoy(w, s.boy)) +
    Count(s.actions, InAction(w)) + Count(s.drinks, Cup(w)) + Count(s.clean, Cup(w)) + Count(s.dirty, Cup(w))
  }

  predicate InBar(t: Student) { t.at.Order? || t.at.Receive? || t.at.GiveBack? }

  predicate Thirsty(t: Student) { t.at.Receive? }

  predicate IsOrder(a: Action) { a.GetDrink? }

  predicate Making(b: Bartender) { b.Fetch? || b.Serve? }

  /** A student has had no more than its share, and leaves with exactly its share. */
  ghost predicate ShareOk(t: Student) {
    match t.at
    case Enter => t.i == 0
    case Order => t.i <= t.tid % 5
    case Gone => t.i == t.tid % 5
    case _ => t.i < t.tid % 5
  }

  /** The cups the boy has still to take are there. */
  ghost predicate BoyOk(s: State) {
    match s.boy
    case Wash(i, n) => i <= n && n - i <= |s.dirty|
    case Shelve(i, n, _) => i < n && n - i - 1 <= |s.dirty|
    case _ => true
  }

  ghost predicate PlacesOk(s: State, c: Config) {
    s.bouncer >= 0 && s.bouncer + Count(s.students, InBar) == c.places
  }

  /** Every order not yet received is an action, on its way with a bartender, or a drink. */
  ghost predicate OrdersOk(s: State) {
    Count(s.students, Thirsty) == Count(s.actions, IsOrder) + Count(s.bartenders, Making) + |s.drinks|
  }

  ghost predicate SharesOk(s: State) {
    forall k :: 0 <= k < |s.students| ==> ShareOk(s.students[k])
  }

  /** Each cup is in exactly one place, and there is no other. */
  ghost predicate CupsOk(s: State, c: Config) {
    && Places(s, Any) == c.cups
    && forall cup :: Places(s, Only(cup)) == Bit(0 <= cup < c.cups)
  }

  ghost predicate Inv(s: State, c: Config) {
    CupsOk(s, c) && PlacesOk(s, c) && OrdersOk(s) && BoyOk(s) && SharesOk(s)
  }

  lemma CountPop<T>(q: seq<T>, q': seq<T>, f: T -> bool)
    requires q != [] && BoundedBuffer.Pop(q, q', q[0])
    ensures Count(q, f) == Count(q', f) + Bit(f(q[0])) && |q'| == |q| - 1
  {
    assert q == [q[0]] + q';
    assert q[1..] == q';
  }

  lemma StudentCups(s: State, s': State, c: Config, k: nat, w: Which)
    requires k < |s.students| && StudentStep(s, s', c, k)
    ensures Places(s', w) == Places(s, w)
  {
    hide Count;
    CountUpdate(s.students, InStudent(w), k, s'.students[k]);
    match s.students[k].at
    case Order =>
      if s'.actions != s.actions {
        CountAppend(s.actions, InAction(w), GetDrink(s.students[k].tid));
      }
    case Receive => CountPop(s.drinks, s'.drinks, Cup(w));
    case GiveBack(cup) => CountAppend(s.actions, InAction(w), PutDrink(s.students[k].tid, cup));
    case _ =>
  }

  lemma BartenderCups(s: State, s': State, c: Config, k: nat, w: Which)
    requires k < |s.bartenders| && BartenderStep(s, s', c, k)
    ensures Places(s', w) == Places(s, w)
  {
    hide Count;
    CountUpdate(s.bartenders, InBartender(w), k, s'.bartenders[k]);
    match s.bartenders[k]
    case Wait => CountPop(s.actions, s'.actions, InAction(w));
    case Fetch => CountPop(s.clean, s'.clean, Cup(w));
    case Serve(cup) => CountAppend(s.drinks, Cup(w), cup);
    case Return(cup) => CountAppend(s.dirty, Cup(w), cup);
    case _ =>
  }

  lemma BoyCups(s: State, s': State, c: Config, w: Which)
    requires BoyStep(s, s', c)
    ensures Places(s', w) == Places(s, w)
  {
    match s.boy
    case Wash(i, n) =>
      if i < n {
        CountPop(s.dirty, s'.dirty, Cup(w));
      }
    case Shelve(_, _, cup) => CountAppend(s.clean, Cup(w), cup);
    case _ =>
  }

  lemma StudentCounts(s: State, s': State, c: Config, k: nat)
    requires k < |s.students| && StudentStep(s, s', c, k) && PlacesOk(s, c) && OrdersOk(s) && SharesOk(s) && BoyOk(s)
    ensures PlacesOk(s', c) && OrdersOk(s') && SharesOk(s') && BoyOk(s')
  {
    CountUpdate(s.students, InBar, k, s'.students[k]);
    CountUpdate(s.students, Thirsty, k, s'.students[k]);
    match s.students[k].at
    case Order =>
      if s'.actions != s.actions {
        CountAppend(s.actions, IsOrder, GetDrink(s.students[k].tid));
      }
    case Receive => CountPop(s.drinks, s'.drinks, Cup(Any));
    case GiveBack(cup) => CountAppend(s.actions, IsOrder, PutDrink(s.students[k].tid, cup));
    case _ =>
  }

  lemma BartenderCounts(s: State, s': State, c: Config, k: nat)
    requires k < |s.bartenders| && BartenderStep(s, s', c, k) && PlacesOk(s, c) && OrdersOk(s) && SharesOk(s)
    requires BoyOk(s)
    ensures PlacesOk(s', c) && OrdersOk(s') && SharesOk(s') && BoyOk(s')
  {
    CountUpdate(s.bartenders, Making, k, s'.bartenders[k]);
    if s.bartenders[k].Wait? {
      CountPop(s.actions, s'.actions, IsOrder);
    }
  }

  lemma BoyCounts(s: State, s': State, c: Config)
    requires BoyStep(s, s', c) && PlacesOk(s, c) && OrdersOk(s) && SharesOk(s) && BoyOk(s)
    ensures PlacesOk(s', c) && OrdersOk(s') && SharesOk(s') && BoyOk(s')
  {
    if s.boy.Wash? && s.boy.i < s.boy.n {
      CountPop(s.dirty, s'.dirty, Cup(Any));
    }
  }

  lemma StepSafe(s: State, s': State, c: Config)
    requires Inv(s, c) && Next(s, s', c)
    ensures Inv(s', c)
  {
    hide Places;
    hide StudentStep;
    hide BartenderStep;
    hide BoyStep;
    if k: nat :| k < |s.students| && StudentStep(s, s', c, k) {
      forall w: Which ensures Places(s', w) == Places(s, w) {
        StudentCups(s, s', c, k, w);
      }
      StudentCounts(s, s', c, k);
    } else if k: nat :| k < |s.bartenders| && BartenderStep(s, s', c, k) {
      forall w: Which ensures Places(s', w) == Places(s, w) {
        BartenderCups(s, s', c, k, w);
      }
      BartenderCounts(s, s', c, k);
    } else {
      forall w: Which ensures Places(s', w) == Places(s, w) {
        BoyCups(s, s', c, w);
      }
      BoyCounts(s, s', c);
    }
  }

  lemma {:induction false} CountCups(n: nat, w: Which)
    ensures Count(AllCups(n), Cup(w)) == if w.Any? then n else Bit(0 <= w.cup < n)
  {
    if n > 0 {
      CountCups(n - 1, w);
      assert AllCups(n) == AllCups(n - 1) + [n - 1];
      CountAppend(AllCups(n - 1), Cup(w), n - 1);
    }
  }

  lemma InitSafe(s: State, c: Config)
    requires Init(s, c)
    ensures Inv(s, c)
  {
    forall w: Which ensures Places(s, w) == if w.Any? then c.cups else Bit(0 <= w.cup < c.cups) {
      CountNone(s.students, InStudent(w));
      CountNone(s.bartenders, InBartender(w));
      CountCups(c.cups, w);
    }
    CountNone(s.students, InBar);
    CountNone(s.students, Thirsty);
    CountNone(s.bartenders, Making);
  }

  /** In every state of every run, for any configuration and any number of threads. */
  lemma {:induction false} RunSafe(run: seq<State>, c: Config, i: nat)
    requires Run(run, c) && i < |run|
    ensures Inv(run[i], c)
  {
    hide Inv;
    hide Init;
    hide Next;
    if i == 0 {
      InitSafe(run[0], c);
    } else {
      RunSafe(run, c, i - 1);
      StepSafe(run[i - 1], run[i], c);
    }
  }

  lemma {:induction false} CountAll(q: seq<int>)
    ensures Count(q, Cup(Any)) == |q|
  {
    if q != [] {
      CountAll(q[1..]);
    }
  }

  /**
   * What a run promises: at most M students in the bar; the drinks waiting are for students who
   * ordered them; the cup boy never waits for a dirty cup; and nobody ever waits to put a cup
   * into the clean or the dirty buffer.
   */
  lemma Orderly(s: State, c: Config)
    requires Inv(s, c)
    ensures Count(s.students, InBar) <= c.places
    ensures Count(s.actions, IsOrder) + |s.drinks| <= Count(s.students, Thirsty)
    ensures s.boy.Wash? && s.boy.i < s.boy.n ==> s.dirty != []
    ensures s.boy.Shelve? ==> |s.clean| < c.cups
    ensures forall k :: 0 <= k < |s.bartenders| && s.bartenders[k].Return? ==> |s.dirty| < c.cups
  {
    CountAll(s.clean);
    CountAll(s.dirty);
    forall k | 0 <= k < |s.bartenders| && s.bartenders[k].Return? ensures |s.dirty| < c.cups {
      CountMember(s.bartenders, InBartender(Any), k);
    }
  }

  /** The dirty cups that the boy will take, or at least look at, before he dozes again. */
  function Owed(s: State): int {
    match s.boy
    case Read => |s.dirty|
    case Wash(i, n) => n - i
    case Shelve(i, n, _) => n - i - 1
    case Doze => 0
  }

  predicate Calling(b: Bartender) { b.Look? || b.Call? }

  /** If too many other cups are dirty the boy is called, or is going to be. */
  ghost predicate CalledOk(s: State, c: Config) {
    10 * (|s.dirty| - Owed(s)) >= 6 * c.cups ==>
      s.cupsem == 1 || exists k :: 0 <= k < |s.bartenders| && Calling(s.bartenders[k])
  }

  lemma BartenderCalls(s: State, s': State, c: Config, k: nat)
    requires c.exact && c.cups > 0 && CalledOk(s, c) && BoyOk(s) && k < |s.bartenders| && BartenderStep(s, s', c, k)
    ensures CalledOk(s', c)
  {
    assert Calling(s'.bartenders[k]) || !Calling(s.bartenders[k]) || s'.dirty == s.dirty;
    forall j | 0 <= j < |s.bartenders| && j != k && Calling(s.bartenders[j]) ensures Calling(s'.bartenders[j]) {
    }
  }

  /** A bartender who has put a cup back goes to call exactly if at least 6 in 10 are dirty then. */
  lemma CallsExactly(s: State, s': State, c: Config, k: nat)
    requires c.exact && c.cups > 0 && k < |s.bartenders| && s.bartenders[k].Look? && BartenderStep(s, s', c, k)
    ensures |s'.bartenders| == |s.bartenders| && (s'.bartenders[k].Call? <==> 10 * |s.dirty| >= 6 * c.cups)
  {
  }

  lemma BoyCalled(s: State, s': State, c: Config)
    requires c.exact && c.cups > 0 && CalledOk(s, c) && BoyStep(s, s', c)
    ensures CalledOk(s', c)
  {
    if j :| 0 <= j < |s.bartenders| && Calling(s.bartenders[j]) {
      assert Calling(s'.bartenders[j]);
    }
  }

  lemma {:induction false} RunCalls(run: seq<State>, c: Config, i: nat)
    requires Run(run, c) && c.exact && c.cups > 0 && i < |run|
    ensures CalledOk(run[i], c)
  {
    hide Inv;
    if i > 0 {
      var s, s' := run[i - 1], run[i];
      RunCalls(run, c, i - 1);
      RunSafe(run, c, i - 1);
      assert Next(s, s', c);
      hide StudentStep;
      hide BartenderStep;
      hide BoyStep;
      if k: nat :| k < |s.students| && StudentStep(s, s', c, k) {
        StudentCalls(s, s', c, k);
      } else if k: nat :| k < |s.bartenders| && BartenderStep(s, s', c, k) {
        SafeBoy(s, c);
        BartenderCalls(s, s', c, k);
      } else {
        BoyCalled(s, s', c);
      }
    }
  }

  lemma SafeBoy(s: State, c: Config)
    requires Inv(s, c)
    ensures BoyOk(s)
  {
  }

  lemma StudentCalls(s: State, s': State, c: Config, k: nat)
    requires CalledOk(s, c) && k < |s.students| && StudentStep(s, s', c, k)
    ensures CalledOk(s', c)
  {
    assert s'.bartenders == s.bartenders;
  }

  /**
   * In every run in which the full semaphore shows how many cups are dirty: while the boy dozes, not
   * called, and no bartender who has put a cup back has still to look, fewer than 6 in 10 are dirty.
   */
  lemma DozesWell(run: seq<State>, c: Config, i: nat)
    requires Run(run, c) && c.exact && c.cups > 0 && i < |run|
    requires run[i].boy.Doze? && run[i].cupsem != 1
    requires forall k :: 0 <= k < |run[i].bartenders| ==> !Calling(run[i].bartenders[k])
    ensures 10 * |run[i].dirty| < 6 * c.cups
  {
    RunCalls(run, c, i);
  }

  /** How many drinks student k has taken in the first i steps. */
  ghost function Drinks(run: seq<State>, k: nat, i: nat): nat
    requires i < |run| && forall j :: 0 <= j <= i ==> k < |run[j].students|
  {
    if i == 0 then 0
    else
      Drinks(run, k, i - 1) +
      Bit(run[i - 1].students[k].at.Receive? && run[i].students[k].at.GiveBack? && run[i].drinks != run[i - 1].drinks)
  }

  lemma StudentDrinks(s: State, s': State, c: Config, j: nat, k: nat)
    requires j < |s.students| && k < |s.students| && StudentStep(s, s', c, j)
    ensures |s'.students| == |s.students|
    ensures
      var me, me' := s.students[k], s'.students[k];
      && me'.tid == me.tid
      && (ShareOk(me) ==>
        me'.i + Bit(me'.at.GiveBack?) ==
          me.i + Bit(me.at.GiveBack?) + Bit(me.at.Receive? && me'.at.GiveBack? && s'.drinks != s.drinks))
  {
    if s.students[j].at.Receive? {
      CountPop(s.drinks, s'.drinks, Cup(Any));
    }
  }

  lemma OthersDrink(s: State, s': State, c: Config)
    requires BoyStep(s, s', c) || exists k: nat :: k < |s.bartenders| && BartenderStep(s, s', c, k)
    ensures s'.students == s.students
  {
  }

  lemma StepDrinks(s: State, s': State, c: Config, k: nat)
    requires Next(s, s', c) && k < |s.students| && ShareOk(s.students[k])
    ensures |s'.students| == |s.students|
    ensures
      var me, me' := s.students[k], s'.students[k];
      me'.i + Bit(me'.at.GiveBack?) ==
        me.i + Bit(me.at.GiveBack?) + Bit(me.at.Receive? && me'.at.GiveBack? && s'.drinks != s.drinks)
  {
    hide StudentStep;
    hide BartenderStep;
    hide BoyStep;
    if j: nat :| j < |s.students| && StudentStep(s, s', c, j) {
      StudentDrinks(s, s', c, j, k);
    } else {
      OthersDrink(s, s', c);
    }
  }

  lemma RunShare(run: seq<State>, c: Config, k: nat, i: nat)
    requires Run(run, c) && i < |run| && k < |run[i].students|
    ensures ShareOk(run[i].students[k])
  {
    RunSafe(run, c, i);
  }

  /** A student's count is of the drinks it has had; so it leaves having had exactly its share. */
  lemma {:induction false} HadDrinks(run: seq<State>, c: Config, k: nat, i: nat)
    requires Run(run, c) && i < |run| && k < |run[0].students|
    ensures forall j :: 0 <= j <= i ==> k < |run[j].students|
    ensures
      var me := run[i].students[k];
      && me.i + Bit(me.at.GiveBack?) == Drinks(run, k, i)
      && (me.at.Gone? ==> Drinks(run, k, i) == me.tid % 5)
  {
    hide Next;
    if i > 0 {
      HadDrinks(run, c, k, i - 1);
      RunShare(run, c, k, i - 1);
      StepDrinks(run[i - 1], run[i], c, k);
    }
    RunShare(run, c, k, i);
  }

  /** How often the boy has woken up, and how often he has been called while he was not called already. */
  ghost function Wakes(run: seq<State>, i: nat): nat
    requires i < |run|
  {
    if i == 0 then 0 else Wakes(run, i - 1) + Bit(run[i - 1].boy.Doze? && run[i].boy.Read?)
  }

  ghost function Calls(run: seq<State>, i: nat): nat
    requires i < |run|
  {
    if i == 0 then 0 else Calls(run, i - 1) + Bit(run[i - 1].cupsem == 0 && run[i].cupsem == 1)
  }

  lemma CupSteps(s: State, s': State, c: Config)
    requires Next(s, s', c) && 0 <= s.cupsem <= 1
    ensures 0 <= s'.cupsem <= 1
    ensures s'.cupsem ==
      s.cupsem + Bit(s.cupsem == 0 && s'.cupsem == 1) - Bit(s.boy.Doze? && s'.boy.Read?)
    ensures s'.cupsem == 1 && s.cupsem == 0 ==>
      exists k :: 0 <= k < |s.bartenders| && s.bartenders[k].Call? && BartenderStep(s, s', c, k)
  {
  }

  /** The boy wakes once at the start, and then once for each time a bartender calls him. */
  lemma {:induction false} WakesWhenCalled(run: seq<State>, c: Config, i: nat)
    requires Run(run, c) && i < |run|
    ensures 0 <= run[i].cupsem <= 1 && Wakes(run, i) + run[i].cupsem == 1 + Calls(run, i)
  {
    if i > 0 {
      WakesWhenCalled(run, c, i - 1);
      assert Next(run[i - 1], run[i], c);
      hide Next;
      CupSteps(run[i - 1], run[i], c);
    }
  }
}
