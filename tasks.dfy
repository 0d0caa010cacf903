/**
 * The warehouse's task scheduler as the pipeline builders see it: a registry of
 * task definitions addressed by fully qualified name, which `CREATE OR REPLACE
 * TASK` overwrites and `ALTER TASK ... RESUME` starts, plus the log of the
 * statements that succeeded, in the order they were issued.
 */
module Tasks {

  /** `database.schema.object`, the way every builder addresses an object. */
  function Qualify(database: string, schema: string, name: string): string
  {
    database + "." + schema + "." + name
  }

  /** When a task runs: on a recurring schedule (`schedule='3 MINUTES'`), or after
      its predecessor task completes (`AFTER name`). */
  datatype Trigger = Every(schedule: string) | After(predecessor: string)

  /** Which MERGE a task body runs. The registry does not interpret the tag; each one
      stands for a function of the domain modules: WineCleanRule for
      WineBronzeSilver.CleanUpsert, WineAcidRule for WineGold.MergeAcid, WineDioxideRule
      for WineGold.MergeDioxide, WineOtherRule for WineGold.MergeOther, SalesCleanRule
      for SalesBronzeSilver.CleanUpsert and SalesGoldRule for SalesGold.MergeGold. */
  datatype Rule = WineCleanRule | WineAcidRule | WineDioxideRule | WineOtherRule | SalesCleanRule | SalesGoldRule

  /** A task body: `ALTER PIPE pipe REFRESH`, or `MERGE INTO target USING source`. */
  datatype Action =
    | RefreshPipe(pipe: string)
    | MergeInto(target: string, source: string, rule: Rule)

  /** A task definition: the warehouse it runs on, its trigger and its body. */
  datatype Task = Task(warehouse: string, trigger: Trigger, action: Action)

  /** The stage task of a domain: on the schedule, `ALTER PIPE pipe REFRESH`. */
  function StageTask(warehouse: string, schedule: string, pipeName: string): Task
  {
    Task(warehouse, Every(schedule), RefreshPipe(pipeName))
  }

  /** A statement that changed the scheduler's state. */
  datatype Command = Create(name: string, task: Task) | Resume(name: string)

  /** CREATE OR REPLACE: the name holds exactly the latest definition; every other
      name keeps its own. */
  function Register(registry: map<string, Task>, name: string, task: Task): map<string, Task>
  {
    registry[name := task]
  }

  lemma RegisterSpec(registry: map<string, Task>, name: string, task: Task)
    ensures Register(registry, name, task).Keys == registry.Keys + {name}
    ensures name in Register(registry, name, task) && Register(registry, name, task)[name] == task
    ensures forall n :: n in registry && n != name ==> Register(registry, name, task)[n] == registry[n]
  {
  }

  /** Registering under the same name twice leaves one definition, the latest. */
  lemma ReRegistrationReplaces(registry: map<string, Task>, name: string, first: Task, second: Task)
    ensures Register(Register(registry, name, first), name, second) == Register(registry, name, second)
  {
  }

  /** Registering the same definition again is idempotent. */
  lemma ReRegistrationIdempotent(registry: map<string, Task>, name: string, task: Task)
    ensures Register(Register(registry, name, task), name, task) == Register(registry, name, task)
  {
    ReRegistrationReplaces(registry, name, task, task);
  }

  /** Every statement of the list is a CREATE OR REPLACE. */
  ghost predicate AllCreates(cmds: seq<Command>)
  {
    forall i :: 0 <= i < |cmds| ==> cmds[i].Create?
  }

  /** No two statements of the list address the same task. */
  ghost predicate DistinctNames(cmds: seq<Command>)
  {
    forall i, j :: 0 <= i < j < |cmds| ==> cmds[i].name != cmds[j].name
  }

  /** The names the CREATE statements of a list register. */
  function CreatedNames(cmds: seq<Command>): set<string>
  {
    set i | 0 <= i < |cmds| && cmds[i].Create? :: cmds[i].name
  }

  /** The registry after a list of CREATE OR REPLACE statements, issued in order. */
  function RegisterAll(registry: map<string, Task>, cmds: seq<Command>): map<string, Task>
    requires AllCreates(cmds)
    decreases |cmds|
  {
    if cmds == [] then registry
    else
      var last := cmds[|cmds| - 1];
      Register(RegisterAll(registry, cmds[..|cmds| - 1]), last.name, last.task)
  }

  /** Issuing one more CREATE extends both the registry and the created names by it. */
  lemma RegisterAllStep(registry: map<string, Task>, cmds: seq<Command>, k: nat)
    requires k < |cmds| && AllCreates(cmds)
    ensures RegisterAll(registry, cmds[..k + 1]) == Register(RegisterAll(registry, cmds[..k]), cmds[k].name, cmds[k].task)
    ensures CreatedNames(cmds[..k + 1]) == CreatedNames(cmds[..k]) + {cmds[k].name}
  {
    assert cmds[..k + 1][..k] == cmds[..k];
    var prefix := cmds[..k + 1];
    assert forall i :: 0 <= i < k ==> prefix[i] == cmds[..k][i];
    assert prefix[k] == cmds[k];
  }

  /** Two lists of registrations issued one after the other register their
      concatenation. */
  lemma {:induction false} RegisterAllAppend(registry: map<string, Task>, first: seq<Command>, second: seq<Command>)
    requires AllCreates(first) && AllCreates(second)
    ensures AllCreates(first + second)
    ensures RegisterAll(RegisterAll(registry, first), second) == RegisterAll(registry, first + second)
    decreases |second|
  {
    assert AllCreates(first + second) by {
      forall i | 0 <= i < |first + second| ensures (first + second)[i].Create? {
        if i >= |first| { assert (first + second)[i] == second[i - |first|]; }
      }
    }
    if second == [] {
      assert first + second == first;
    } else {
      var n := |second| - 1;
      var init := second[..n];
      assert AllCreates(init) by {
        forall i | 0 <= i < |init| ensures init[i].Create? { assert init[i] == second[i]; }
      }
      RegisterAllAppend(registry, first, init);
      assert (first + second)[..|first + second| - 1] == first + init;
      assert (first + second)[|first + second| - 1] == second[n];
    }
  }

  /** The names a concatenation of two lists creates are those of either list. */
  lemma CreatedNamesAppend(first: seq<Command>, second: seq<Command>)
    ensures CreatedNames(first + second) == CreatedNames(first) + CreatedNames(second)
  {
    var both := first + second;
    forall x | x in CreatedNames(both) ensures x in CreatedNames(first) + CreatedNames(second) {
      var i :| 0 <= i < |both| && both[i].Create? && both[i].name == x;
      if i >= |first| { assert both[i] == second[i - |first|]; }
    }
    forall x | x in CreatedNames(second) ensures x in CreatedNames(both) {
      var i :| 0 <= i < |second| && second[i].Create? && second[i].name == x;
      assert both[|first| + i] == second[i];
    }
    forall x | x in CreatedNames(first) ensures x in CreatedNames(both) {
      var i :| 0 <= i < |first| && first[i].Create? && first[i].name == x;
      assert both[i] == first[i];
    }
  }

  /** A list of registrations adds exactly its names to the registry; when the names
      are distinct, each task holds the definition registered for it. */
  lemma {:induction false} RegisterAllSpec(registry: map<string, Task>, cmds: seq<Command>)
    requires AllCreates(cmds)
    ensures RegisterAll(registry, cmds).Keys == registry.Keys + CreatedNames(cmds)
    ensures DistinctNames(cmds) ==> forall i :: 0 <= i < |cmds| ==>
      cmds[i].name in RegisterAll(registry, cmds) && RegisterAll(registry, cmds)[cmds[i].name] == cmds[i].task
    decreases |cmds|
  {
    if cmds != [] {
      var n := |cmds| - 1;
      var init := cmds[..n];
      assert cmds[..n + 1] == cmds;
      RegisterAllStep(registry, cmds, n);
      assert AllCreates(init) by {
        forall i | 0 <= i < |init| ensures init[i].Create? { assert init[i] == cmds[i]; }
      }
      RegisterAllSpec(registry, init);
      if DistinctNames(cmds) {
        assert DistinctNames(init) by {
          forall i, j | 0 <= i < j < |init| ensures init[i].name != init[j].name {
            assert init[i] == cmds[i] && init[j] == cmds[j];
          }
        }
        forall i | 0 <= i < |cmds|
          ensures cmds[i].name in RegisterAll(registry, cmds)
          ensures RegisterAll(registry, cmds)[cmds[i].name] == cmds[i].task
        {
          if i < n {
            assert init[i] == cmds[i];
            assert cmds[i].name != cmds[n].name;
          }
        }
      }
    }
  }

  /** A registered task that no statement of the list names keeps its definition. */
  lemma {:induction false} RegisterAllFrame(registry: map<string, Task>, cmds: seq<Command>, n: string)
    requires AllCreates(cmds)
    requires n in registry && n !in CreatedNames(cmds)
    ensures n in RegisterAll(registry, cmds) && RegisterAll(registry, cmds)[n] == registry[n]
    decreases |cmds|
  {
    if cmds != [] {
      var k := |cmds| - 1;
      var init := cmds[..k];
      assert cmds[..k + 1] == cmds;
      RegisterAllStep(registry, cmds, k);
      assert AllCreates(init) by {
        forall i | 0 <= i < |init| ensures init[i].Create? { assert init[i] == cmds[i]; }
      }
      RegisterAllFrame(registry, init, n);
    }
  }

  /** The Snowpark session through which the builders reach the scheduler. */
  class Session {
    var tasks: map<string, Task>
    var started: set<string>
    var log: seq<Command>

    /** Only a registered task can be running. */
    ghost predicate Valid()
      reads this
    {
      started <= tasks.Keys
    }

    constructor (tasks: map<string, Task>, started: set<string>)
      requires started <= tasks.Keys
      ensures Valid()
      ensures this.tasks == tasks && this.started == started && log == []
    {
      this.tasks := tasks;
      this.started := started;
      log := [];
    }

    /** CREATE OR REPLACE TASK name ...: the definition is replaced, not merged, and
        a newly created task is suspended. */
    method CreateOrReplaceTask(name: string, task: Task)
      requires Valid()
      modifies this
      ensures Valid()
      ensures tasks == Register(old(tasks), name, task)
      ensures started == old(started) - {name}
      ensures log == old(log) + [Create(name, task)]
    {
      tasks := Register(tasks, name, task);
      started := started - {name};
      log := log + [Create(name, task)];
    }

    /** ALTER TASK name RESUME: fails, changing nothing, when no task has that name. */
    method ResumeTask(name: string) returns (ok: bool)
      requires Valid()
      modifies this
      ensures Valid()
      ensures ok <==> name in old(tasks)
      ensures tasks == old(tasks)
      ensures started == if ok then old(started) + {name} else old(started)
      ensures log == if ok then old(log) + [Resume(name)] else old(log)
    {
      ok := name in tasks;
      if ok {
        started := started + {name};
        log := log + [Resume(name)];
      }
    }
  }

  /** Within one schema, qualified names are as distinct as the bare names. */
  lemma QualifyInjective(database: string, schema: string, a: string, b: string)
    ensures Qualify(database, schema, a) == Qualify(database, schema, b) <==> a == b
  {
    var prefix := database + "." + schema + ".";
    assert Qualify(database, schema, a) == prefix + a;
    assert Qualify(database, schema, b) == prefix + b;
    if prefix + a == prefix + b {
      assert a == (prefix + a)[|prefix|..];
      assert b == (prefix + b)[|prefix|..];
    }
  }
}
