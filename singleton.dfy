/** design-patterns/SingletonMeta.py: a metaclass whose `__call__` builds
    an instance of a class only the first time the class is called and hands
    out that instance on every later call. */
module Singleton {

  /** A class that uses the metaclass, by name. */
  type ClassName = string

  /** An instance built by `super().__call__(*args)`, remembering its class
      and the arguments its `__init__` received. */
  class Instance {
    const cls: ClassName
    const args: seq<string>

    constructor(cls: ClassName, args: seq<string>)
      ensures this.cls == cls && this.args == args
    {
      this.cls := cls;
      this.args := args;
    }
  }

  /** The metaclass with its class-level `_instances` dict, shared by every
      class that uses it; `initRuns` lists the classes whose `__init__` ran,
      in order. */
  class SingletonMeta {
    var instances: map<ClassName, Instance>
    var initRuns: seq<ClassName>

    ghost predicate Valid()
      reads this, set c | c in instances :: instances[c]
    {
      (forall c :: c in instances ==> instances[c].cls == c)
      && (forall c :: c in instances <==> c in initRuns)
    }

    constructor()
      ensures Valid() && instances == map[] && initRuns == []
    {
      instances := map[];
      initRuns := [];
    }

    /** `cls(*args)`: the first call for a class constructs and stores an
        instance with these arguments; a later call returns the stored one,
        ignores its arguments and runs no `__init__`. No other class's entry
        changes. */
    method Call(cls: ClassName, args: seq<string>) returns (inst: Instance)
      requires Valid()
      modifies this
      ensures Valid()
      ensures instances == old(instances)[cls := inst]
      ensures cls in old(instances) ==> inst == old(instances)[cls] && initRuns == old(initRuns)
      ensures cls !in old(instances) ==> fresh(inst) && inst.args == args && initRuns == old(initRuns) + [cls]
      ensures inst.cls == cls
    {
      if cls !in instances {
        var made := new Instance(cls, args);
        instances := instances[cls := made];
        initRuns := initRuns + [cls];
      }
      inst := instances[cls];
    }
  }

  /** Lines 19-22: two calls of `Logger()` give the same object, whose
      `__init__` ran once. */
  method LoggerTwice() returns (same: bool, inits: nat)
    ensures same && inits == 1
  {
    var meta := new SingletonMeta();
    var log1 := meta.Call("Logger", []);
    var log2 := meta.Call("Logger", []);
    same := log1 == log2;
    inits := |meta.initRuns|;
  }
}
