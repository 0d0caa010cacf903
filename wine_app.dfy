/**
 * The WINE domain's entry point: it registers the five tasks of the chain,
 * producers before consumers, then resumes them in the reverse of that order.
 */
module WineApp {
  import opened Tasks
  import opened WineBronzeSilver
  import opened WineGold

  const Database := "FEATURESTORE_DB"
  const Schema := "FEATURESTORE_SCHEMA"
  const Warehouse := "FEATURESTORE_WH"
  const Schedule := "3 MINUTES"
  const BronzeTableName := "BRONZE_FD_WINE_RAW"
  const SilverTableName := "SILVER_FD_WINE_CLEAN"
  const AcidTableName := "GOLD_FD_WINE_ACIDITY"
  const DioxideTableName := "GOLD_FD_WINE_DIOXIDE"
  const OtherTableName := "GOLD_FD_WINE_OTHER"
  const SuccessMessage := "Successfully created and started tasks"

  /** The chain's tasks, producers first. */
  const TaskList: seq<string> :=
    [StageTaskName, SilverTaskName, AcidTaskName, DioxideTaskName, OtherTaskName]

  /** Python's `reversed`: the last element first. */
  function Reversed<T>(s: seq<T>): seq<T>
  {
    seq(|s|, i requires 0 <= i < |s| => s[|s| - 1 - i])
  }

  /** Element i of the reversal is element n-1-i of the input. */
  lemma ReversedAt<T>(s: seq<T>)
    ensures |Reversed(s)| == |s|
    ensures forall i :: 0 <= i < |s| ==> Reversed(s)[i] == s[|s| - 1 - i]
  {
  }

  /** Reversing peels the first element off to the end. */
  lemma ReversedCons<T>(s: seq<T>)
    requires s != []
    ensures Reversed(s) == Reversed(s[1..]) + [s[0]]
  {
    ReversedAt(s);
    ReversedAt(s[1..]);
    assert forall i :: 0 <= i < |s| - 1 ==> Reversed(s)[i] == Reversed(s[1..])[i];
  }

  /** Reversing twice gives the input back. */
  lemma ReversedTwice<T>(s: seq<T>)
    ensures Reversed(Reversed(s)) == s
  {
    ReversedAt(s);
    ReversedAt(Reversed(s));
  }

  /** Reversing keeps every element, as often as it occurs. */
  lemma {:induction false} ReversedMultiset<T>(s: seq<T>)
    ensures multiset(Reversed(s)) == multiset(s)
  {
    if s != [] {
      ReversedMultiset(s[1..]);
      ReversedCons(s);
      assert s == [s[0]] + s[1..];
    }
  }

  lemma ReversedMember<T>(s: seq<T>, x: T)
    ensures x in Reversed(s) <==> x in s
  {
    ReversedMultiset(s);
    assert x in Reversed(s) <==> x in multiset(Reversed(s));
  }

  /** The RESUME statement for each name, in order. */
  function Resumes(database: string, schema: string, names: seq<string>): (r: seq<Command>)
    ensures |r| == |names|
    ensures forall i :: 0 <= i < |names| ==> r[i] == Resume(Qualify(database, schema, names[i]))
  {
    seq(|names|, i requires 0 <= i < |names| => Resume(Qualify(database, schema, names[i])))
  }

  /** The qualified names of a list of tasks. */
  function QualifiedNames(database: string, schema: string, names: seq<string>): set<string>
  {
    set n | n in names :: Qualify(database, schema, n)
  }

  /** Position j of `order` holds the first name that is not registered. */
  ghost predicate FirstMissing(tasks: map<string, Task>, database: string, schema: string, order: seq<string>, j: int)
  {
    && 0 <= j < |order|
    && Qualify(database, schema, order[j]) !in tasks
    && forall i :: 0 <= i < j ==> Qualify(database, schema, order[i]) in tasks
  }

  /** The loop of `alter_tasks` over any order of task names: RESUME each in turn;
      a RESUME that fails (no such task) ends the loop, as the statement's
      exception would. */
  method ResumeEach(session: Session, database: string, schema: string, order: seq<string>) returns (ok: bool)
    requires session.Valid()
    modifies session
    ensures session.Valid()
    ensures session.tasks == old(session.tasks)
    ensures ok <==> forall n :: n in order ==> Qualify(database, schema, n) in old(session.tasks)
    ensures ok ==> session.log == old(session.log) + Resumes(database, schema, order)
    ensures ok ==> session.started == old(session.started) + QualifiedNames(database, schema, order)
    ensures !ok ==> exists j :: FirstMissing(old(session.tasks), database, schema, order, j) &&
                        session.log == old(session.log) + Resumes(database, schema, order[..j]) &&
                        session.started == old(session.started) + QualifiedNames(database, schema, order[..j])
  {
    var i := 0;
    while i < |order|
      invariant 0 <= i <= |order|
      invariant session.Valid()
      invariant session.tasks == old(session.tasks)
      invariant forall j :: 0 <= j < i ==> Qualify(database, schema, order[j]) in session.tasks
      invariant session.log == old(session.log) + Resumes(database, schema, order[..i])
      invariant session.started == old(session.started) + QualifiedNames(database, schema, order[..i])
    {
      var name := Qualify(database, schema, order[i]);
      var resumed := session.ResumeTask(name);
      if !resumed {
        assert FirstMissing(old(session.tasks), database, schema, order, i);
        return false;
      }
      ResumesStep(database, schema, order, i);
      i := i + 1;
    }
    assert order[..i] == order;
    forall n | n in order ensures Qualify(database, schema, n) in old(session.tasks) {
      var j :| 0 <= j < |order| && order[j] == n;
    }
    return true;
  }

  /** One more RESUME extends the statement log and the started names by one task. */
  lemma ResumesStep(database: string, schema: string, order: seq<string>, i: nat)
    requires i < |order|
    ensures Resumes(database, schema, order[..i + 1]) == Resumes(database, schema, order[..i]) + [Resume(Qualify(database, schema, order[i]))]
    ensures QualifiedNames(database, schema, order[..i + 1]) == QualifiedNames(database, schema, order[..i]) + {Qualify(database, schema, order[i])}
  {
    assert order[..i + 1] == order[..i] + [order[i]];
  }

  /** `alter_tasks`: RESUME each task of TaskList, last one first, so that a
      consumer is running before its producer starts. */
  method AlterTasks(session: Session, database: string, schema: string) returns (ok: bool)
    requires session.Valid()
    modifies session
    ensures session.Valid()
    ensures session.tasks == old(session.tasks)
    ensures ok <==> forall n :: n in TaskList ==> Qualify(database, schema, n) in old(session.tasks)
    ensures ok ==> session.log == old(session.log) + Resumes(database, schema, Reversed(TaskList))
    ensures ok ==> session.started == old(session.started) + QualifiedNames(database, schema, TaskList)
    ensures !ok ==> exists j :: FirstMissing(old(session.tasks), database, schema, Reversed(TaskList), j) &&
                        session.log == old(session.log) + Resumes(database, schema, Reversed(TaskList)[..j]) &&
                        session.started == old(session.started) + QualifiedNames(database, schema, Reversed(TaskList)[..j])
  {
    var order := Reversed(TaskList);
    ReversedAt(TaskList);
    forall n ensures n in order <==> n in TaskList { ReversedMember(TaskList, n); }
    ok := ResumeEach(session, database, schema, order);
    assert QualifiedNames(database, schema, order) == QualifiedNames(database, schema, TaskList);
  }

  /** The registrations `main` issues through `CreateBronzeSilver`: the stage task,
      then the silver task. */
  const BronzeSilverRegistrations: seq<Command> := [
    Create(Qualify(Database, Schema, StageTaskName), StageTask(Warehouse, Schedule, DefaultPipe)),
    Create(Qualify(Database, Schema, SilverTaskName),
           SilverTask(Database, Schema, Warehouse, BronzeTableName, SilverTableName, StageTaskName))]

  /** The registrations `main` issues through `CreateGold`: acid, dioxide, other. */
  const GoldRegistrations: seq<Command> := [
    Create(Qualify(Database, Schema, AcidTaskName),
           GoldTask(Database, Schema, Warehouse, AcidTableName, SilverTableName, SilverTaskName, WineAcidRule)),
    Create(Qualify(Database, Schema, DioxideTaskName),
           GoldTask(Database, Schema, Warehouse, DioxideTableName, SilverTableName, SilverTaskName, WineDioxideRule)),
    Create(Qualify(Database, Schema, OtherTaskName),
           GoldTask(Database, Schema, Warehouse, OtherTableName, SilverTableName, SilverTaskName, WineOtherRule))]

  /** All five registrations of `main`, in the order it issues them. */
  const Registrations: seq<Command> := BronzeSilverRegistrations + GoldRegistrations

  /** Everything `main` issues: the five registrations, then the five resumes. */
  const MainLog: seq<Command> := Registrations + Resumes(Database, Schema, Reversed(TaskList))

  /** `main`: build the chain, start it, report success. */
  method MainHandler(session: Session) returns (r: string)
    requires session.Valid()
    modifies session
    ensures session.Valid()
    ensures r == SuccessMessage
    ensures session.log == old(session.log) + MainLog
    ensures session.tasks == RegisterAll(old(session.tasks), Registrations)
    ensures forall i :: 0 <= i < |Registrations| ==>
      Registrations[i].name in session.tasks && session.tasks[Registrations[i].name] == Registrations[i].task
    ensures session.tasks.Keys == old(session.tasks).Keys + QualifiedNames(Database, Schema, TaskList)
    ensures forall n :: n in old(session.tasks) && n !in QualifiedNames(Database, Schema, TaskList) ==>
      session.tasks[n] == old(session.tasks)[n]
    ensures session.started == old(session.started) + QualifiedNames(Database, Schema, TaskList)
  {
    ghost var log0, started0 := session.log, session.started;
    ghost var names := QualifiedNames(Database, Schema, TaskList);
    CreateChain(session);
    RegistrationsLand(old(session.tasks));
    RemoveThenAdd(started0, names);
    ghost var log1 := session.log;
    var ok := AlterTasks(session, Database, Schema);
    assert ok;
    assert log1 + Resumes(Database, Schema, Reversed(TaskList)) == log0 + MainLog;
    r := SuccessMessage;
  }

  /** The first half of `main`: the five CREATE OR REPLACE TASK statements, in the
      order of TaskList.  Each leaves its task suspended. */
  method CreateChain(session: Session)
    requires session.Valid()
    modifies session
    ensures session.Valid()
    ensures session.log == old(session.log) + Registrations
    ensures session.tasks == RegisterAll(old(session.tasks), Registrations)
    ensures session.started == old(session.started) - CreatedNames(Registrations)
  {
    CreateBronzeSilverTasks(session);
    CreateGoldTasks(session);
    RegistrationsCreate();
    RegisterAllAppend(old(session.tasks), BronzeSilverRegistrations, GoldRegistrations);
    CreatedNamesAppend(BronzeSilverRegistrations, GoldRegistrations);
  }

  /** `# Creating bronze task`, `# Creating silver task`. */
  method CreateBronzeSilverTasks(session: Session)
    requires session.Valid()
    modifies session
    ensures session.Valid()
    ensures session.log == old(session.log) + BronzeSilverRegistrations
    ensures session.tasks == RegisterAll(old(session.tasks), BronzeSilverRegistrations)
    ensures session.started == old(session.started) - CreatedNames(BronzeSilverRegistrations)
  {
    ghost var regs := BronzeSilverRegistrations;
    ghost var t0, l0, s0 := session.tasks, session.log, session.started;
    RegistrationsCreate();
    assert regs[..0] == [];
    var bronzeSilver := new CreateBronzeSilver(session, Database, Schema, Warehouse);
    bronzeSilver.CreateStageBronzeRaw(Schedule);
    Step(regs, t0, l0, s0, t0, l0, s0, session.tasks, session.log, session.started, 0);
    ghost var t1, l1, s1 := session.tasks, session.log, session.started;
    bronzeSilver.CreateBronzeRawSilverClean(BronzeTableName, SilverTableName);
    Step(regs, t0, l0, s0, t1, l1, s1, session.tasks, session.log, session.started, 1);
    assert regs[..2] == regs;
  }

  /** `# Creating gold task`: the three gold builders. */
  method CreateGoldTasks(session: Session)
    requires session.Valid()
    modifies session
    ensures session.Valid()
    ensures session.log == old(session.log) + GoldRegistrations
    ensures session.tasks == RegisterAll(old(session.tasks), GoldRegistrations)
    ensures session.started == old(session.started) - CreatedNames(GoldRegistrations)
  {
    ghost var regs := GoldRegistrations;
    ghost var t0, l0, s0 := session.tasks, session.log, session.started;
    RegistrationsCreate();
    assert regs[..0] == [];
    var gold := new CreateGold(session, Database, Schema, Warehouse);
    gold.CreateAcid(AcidTableName, SilverTableName);
    Step(regs, t0, l0, s0, t0, l0, s0, session.tasks, session.log, session.started, 0);
    ghost var t1, l1, s1 := session.tasks, session.log, session.started;
    gold.CreateDioxide(DioxideTableName, SilverTableName);
    Step(regs, t0, l0, s0, t1, l1, s1, session.tasks, session.log, session.started, 1);
    ghost var t2, l2, s2 := session.tasks, session.log, session.started;
    gold.CreateOtherFeatures(OtherTableName, SilverTableName);
    Step(regs, t0, l0, s0, t2, l2, s2, session.tasks, session.log, session.started, 2);
    assert regs[..3] == regs;
  }

  lemma RegistrationsCreate()
    ensures AllCreates(BronzeSilverRegistrations) && AllCreates(GoldRegistrations)
  {
  }

  /** Bookkeeping for the registrations: one more CREATE moves the session from
      the first `k` statements of `regs` to the first `k + 1`. */
  lemma Step(regs: seq<Command>, t0: map<string, Task>, l0: seq<Command>, s0: set<string>,
             tk: map<string, Task>, lk: seq<Command>, sk: set<string>,
             t: map<string, Task>, l: seq<Command>, s: set<string>, k: nat)
    requires k < |regs| && AllCreates(regs)
    requires tk == RegisterAll(t0, regs[..k])
    requires lk == l0 + regs[..k]
    requires sk == s0 - CreatedNames(regs[..k])
    requires t == Register(tk, regs[k].name, regs[k].task)
    requires l == lk + [regs[k]]
    requires s == sk - {regs[k].name}
    ensures t == RegisterAll(t0, regs[..k + 1])
    ensures l == l0 + regs[..k + 1]
    ensures s == s0 - CreatedNames(regs[..k + 1])
  {
    RegisterAllStep(t0, regs, k);
    assert regs[..k + 1] == regs[..k] + [regs[k]];
  }

  lemma RemoveThenAdd<T>(s: set<T>, q: set<T>)
    ensures s - q + q == s + q
  {
  }

  /** The registry `main` leaves behind: the five tasks of TaskList, each with the
      definition `main` gave it, and no other new name. */
  lemma RegistrationsLand(before: map<string, Task>)
    ensures AllCreates(Registrations)
    ensures CreatedNames(Registrations) == QualifiedNames(Database, Schema, TaskList)
    ensures forall n :: n in TaskList ==> Qualify(Database, Schema, n) in RegisterAll(before, Registrations)
    ensures forall i :: 0 <= i < |Registrations| ==>
      Registrations[i].name in RegisterAll(before, Registrations) &&
      RegisterAll(before, Registrations)[Registrations[i].name] == Registrations[i].task
    ensures RegisterAll(before, Registrations).Keys == before.Keys + QualifiedNames(Database, Schema, TaskList)
    ensures forall n :: n in before && n !in QualifiedNames(Database, Schema, TaskList) ==>
      RegisterAll(before, Registrations)[n] == before[n]
  {
    RegistrationNames();
    NamesDistinct();
    assert CreatedNames(Registrations) == QualifiedNames(Database, Schema, TaskList) by {
      forall n ensures n in CreatedNames(Registrations) <==> n in QualifiedNames(Database, Schema, TaskList) {
        if n in QualifiedNames(Database, Schema, TaskList) {
          var m :| m in TaskList && n == Qualify(Database, Schema, m);
          var k :| 0 <= k < |TaskList| && TaskList[k] == m;
          assert Registrations[k].name == n;
        }
      }
    }
    assert DistinctNames(Registrations);
    RegisterAllSpec(before, Registrations);
    forall n | n in before && n !in QualifiedNames(Database, Schema, TaskList)
      ensures RegisterAll(before, Registrations)[n] == before[n]
    {
      RegisterAllFrame(before, Registrations, n);
    }
  }

  // ---------------------------------------------------------------------------
  // What the statement sequence of `main` guarantees

  /** The five tasks have five different qualified names. */
  lemma NamesDistinct()
    ensures forall i, j ::
      (0 <= i < |TaskList| && 0 <= j < |TaskList| &&
       Qualify(Database, Schema, TaskList[i]) == Qualify(Database, Schema, TaskList[j])) ==> i == j
  {
    forall i, j | 0 <= i < |TaskList| && 0 <= j < |TaskList| &&
      Qualify(Database, Schema, TaskList[i]) == Qualify(Database, Schema, TaskList[j])
      ensures i == j
    {
      QualifyInjective(Database, Schema, TaskList[i], TaskList[j]);
    }
  }

  lemma RegistrationNames()
    ensures |Registrations| == |TaskList|
    ensures AllCreates(Registrations)
    ensures forall i :: 0 <= i < |TaskList| ==>
      Registrations[i].Create? && Registrations[i].name == Qualify(Database, Schema, TaskList[i])
  {
  }

  /** The log of `main`: the creations in the order of TaskList, then the resumes in
      exactly the reverse of it. */
  lemma LogShape()
    ensures |MainLog| == 2 * |TaskList|
    ensures forall i :: 0 <= i < |TaskList| ==>
      MainLog[i].Create? && MainLog[i].name == Qualify(Database, Schema, TaskList[i])
    ensures forall i :: |TaskList| <= i < |MainLog| ==>
      MainLog[i] == Resume(Qualify(Database, Schema, TaskList[2 * |TaskList| - 1 - i]))
  {
    RegistrationNames();
    ReversedAt(TaskList);
    forall i | |TaskList| <= i < |MainLog|
      ensures MainLog[i] == Resume(Qualify(Database, Schema, TaskList[2 * |TaskList| - 1 - i]))
    {
      assert MainLog[i] == Resumes(Database, Schema, Reversed(TaskList))[i - |TaskList|];
    }
  }

  /** The triggers of the chain: the stage task runs on a schedule, the silver task
      AFTER the stage task and each gold task AFTER the silver task. */
  lemma Predecessors()
    ensures MainLog[0].Create? && MainLog[0].task.trigger.Every?
    ensures MainLog[1].Create? && MainLog[1].task.trigger == After(MainLog[0].name)
    ensures forall c :: 2 <= c < |TaskList| ==>
      MainLog[c].Create? && MainLog[c].task.trigger == After(MainLog[1].name)
    ensures forall c :: 0 <= c < |TaskList| && MainLog[c].task.trigger.After? ==>
      && 0 < c
      && MainLog[c].task.trigger.predecessor == MainLog[if c == 1 then 0 else 1].name
  {
  }

  /** Creation is topological: a task's predecessor was created earlier in `main`. */
  lemma CreationTopological()
    ensures forall i :: 0 <= i < |MainLog| && MainLog[i].Create? && MainLog[i].task.trigger.After? ==>
      exists j :: 0 <= j < i && MainLog[j].Create? && MainLog[j].name == MainLog[i].task.trigger.predecessor
  {
    LogShape();
    Predecessors();
    forall i | 0 <= i < |MainLog| && MainLog[i].Create? && MainLog[i].task.trigger.After?
      ensures exists j :: 0 <= j < i && MainLog[j].Create? && MainLog[j].name == MainLog[i].task.trigger.predecessor
    {
      var j := if i == 1 then 0 else 1;
      assert MainLog[j].name == MainLog[i].task.trigger.predecessor;
    }
  }

  /** Only tasks of the chain are resumed. */
  lemma ResumesOnlyChain()
    ensures forall i :: 0 <= i < |MainLog| && MainLog[i].Resume? ==>
      MainLog[i].name in QualifiedNames(Database, Schema, TaskList)
  {
    LogShape();
    forall i | 0 <= i < |MainLog| && MainLog[i].Resume?
      ensures MainLog[i].name in QualifiedNames(Database, Schema, TaskList)
    {
      assert TaskList[2 * |TaskList| - 1 - i] in TaskList;
    }
  }

  /** Every task of the chain is resumed. */
  lemma ResumesWholeChain()
    ensures forall n :: n in TaskList ==>
      exists i :: 0 <= i < |MainLog| && MainLog[i] == Resume(Qualify(Database, Schema, n))
  {
    LogShape();
    var m := |TaskList|;
    forall n | n in TaskList
      ensures exists i :: 0 <= i < |MainLog| && MainLog[i] == Resume(Qualify(Database, Schema, n))
    {
      var k :| 0 <= k < m && TaskList[k] == n;
      assert MainLog[2 * m - 1 - k] == Resume(Qualify(Database, Schema, n));
    }
  }

  /** No task is resumed twice. */
  lemma ResumedOnce()
    ensures forall i, j ::
      (0 <= i < |MainLog| && 0 <= j < |MainLog| && MainLog[i].Resume? && MainLog[i] == MainLog[j]) ==> i == j
  {
    LogShape();
    var m := |TaskList|;
    forall i, j | 0 <= i < |MainLog| && 0 <= j < |MainLog| && MainLog[i].Resume? && MainLog[i] == MainLog[j]
      ensures i == j
    {
      assert m <= i && m <= j;
      ResumeIndex(i, 2 * m - 1 - j);
    }
  }

  /** The bare task names of the chain are distinct. */
  lemma TaskListDistinct(a: nat, b: nat)
    requires a < |TaskList| && b < |TaskList|
    ensures TaskList[a] == TaskList[b] <==> a == b
  {
  }

  /** Every resumed task was created earlier in `main`. */
  lemma ResumedAfterCreated()
    ensures forall i :: 0 <= i < |MainLog| && MainLog[i].Resume? ==>
      exists j :: 0 <= j < i && MainLog[j].Create? && MainLog[j].name == MainLog[i].name
  {
    LogShape();
    forall i | 0 <= i < |MainLog| && MainLog[i].Resume?
      ensures exists j :: 0 <= j < i && MainLog[j].Create? && MainLog[j].name == MainLog[i].name
    {
      var j := 2 * |TaskList| - 1 - i;
      assert MainLog[j].name == MainLog[i].name;
    }
  }

  /** The one RESUME of the log that names the k-th task of TaskList sits at the
      mirror position of its CREATE. */
  lemma ResumeIndex(i: nat, k: nat)
    requires |TaskList| <= i < |MainLog| && k < |TaskList|
    requires MainLog[i].name == MainLog[k].name
    ensures i == 2 * |TaskList| - 1 - k
  {
    LogShape();
    var a := 2 * |TaskList| - 1 - i;
    QualifyInjective(Database, Schema, TaskList[a], TaskList[k]);
    TaskListDistinct(a, k);
  }

  /** Consumers are resumed before their producers: the RESUME of a task that runs
      after a predecessor precedes the RESUME of that predecessor. */
  lemma ConsumersResumedFirst()
    ensures forall c, i, j ::
      && 0 <= c < |TaskList| && MainLog[c].task.trigger.After?
      && |TaskList| <= i < |MainLog| && |TaskList| <= j < |MainLog|
      && MainLog[i].name == MainLog[c].name && MainLog[j].name == MainLog[c].task.trigger.predecessor
      ==> i < j
  {
    LogShape();
    Predecessors();
    var m := |TaskList|;
    forall c, i, j |
      && 0 <= c < m && MainLog[c].task.trigger.After?
      && m <= i < |MainLog| && m <= j < |MainLog|
      && MainLog[i].name == MainLog[c].name && MainLog[j].name == MainLog[c].task.trigger.predecessor
      ensures i < j
    {
      var p := if c == 1 then 0 else 1;
      ResumeIndex(i, c);
      ResumeIndex(j, p);
    }
  }

  /** The silver table that the silver task writes is the table all three gold tasks
      read, and all three run after the silver task. */
  lemma SilverFeedsGold()
    ensures forall g :: 2 <= g < |TaskList| ==>
      && MainLog[g].task.action.MergeInto? && MainLog[1].task.action.MergeInto?
      && MainLog[g].task.action.source == MainLog[1].task.action.target
      && MainLog[g].task.trigger == After(MainLog[1].name)
  {
  }
}
