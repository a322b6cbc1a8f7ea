/** Configuration values on a tree of managers. A manager that has an entry keeps a copy of its parent's value,
    by a registration with the parent's entry, until it is given a value of its own. */
module ConfigManagers {
  class Entry {
    ghost const owner: ConfigManager
    ghost const name: string
    var value: string
    var reg: Entry?           // the parent's entry this one takes its value from
    var onChanged: seq<Entry> // the entries that take their value from this one

    constructor (ghost owner: ConfigManager, ghost name: string)
      ensures this.owner == owner && this.name == name && value == "" && reg == null && onChanged == []
    {
      this.owner, this.name := owner, name;
      value, reg, onChanged := "", null, [];
    }
  }

  class ConfigManager {
    const parent: ConfigManager?
    ghost const depth: nat
    var config: map<string, Entry>
    // history: the values given to this manager itself
    ghost var own: map<string, string>

    constructor (parent: ConfigManager?)
      ensures this.parent == parent && config == map[] && own == map[]
      ensures depth == if parent == null then 0 else parent.depth + 1
    {
      this.parent, config, own := parent, map[], map[];
      depth := if parent == null then 0 else parent.depth + 1;
    }
  }

  // ---------------------------------------------------------------- invariant

  /** The managers `all` form a tree, and `es` are their entries. */
  ghost predicate Placed(all: set<ConfigManager>, es: set<Entry>)
    reads all
  {
    && (forall m :: m in all && m.parent != null ==> m.parent in all && m.depth == m.parent.depth + 1)
    && (forall m, n :: m in all && n in m.config ==>
        m.config[n] in es && m.config[n].owner == m && m.config[n].name == n)
    && (forall e :: e in es ==> e.owner in all && e.name in e.owner.config && e.owner.config[e.name] == e)
    && (forall m, n :: m in all && n in m.own ==> n in m.config)
  }

  /** Registrations go from an entry to the entry of the same name one level up, and both ends know. */
  ghost predicate Registered(es: set<Entry>)
    reads es
  {
    && (forall e :: e in es && e.reg != null ==>
          e.reg in es && e.owner.parent == e.reg.owner && e.name == e.reg.name && e in e.reg.onChanged)
    && (forall e, i :: e in es && 0 <= i < |e.onChanged| ==> e.onChanged[i] in es && e.onChanged[i].reg == e)
    && (forall e, i, j :: e in es && 0 <= i < j < |e.onChanged| ==> e.onChanged[i] != e.onChanged[j])
  }

  /** An entry is registered unless it was given a value, or has no parent to take one from. */
  ghost predicate Sourced(e: Entry)
    reads e, e.owner
  {
    && (e.name in e.owner.own ==> e.reg == null && e.value == e.owner.own[e.name])
    && (e.name !in e.owner.own && e.owner.parent == null ==> e.reg == null && e.value == "")
    && (e.name !in e.owner.own && e.owner.parent != null ==> e.reg != null)
  }

  ghost predicate Copied(e: Entry)
    reads e, e.reg
  {
    e.reg != null ==> e.value == e.reg.value
  }

  ghost predicate Valid(all: set<ConfigManager>, es: set<Entry>)
    reads all, es
  {
    && Placed(all, es) && Registered(es)
    && (forall e :: e in es ==> Sourced(e))
    && (forall e :: e in es ==> Copied(e))
  }

  /** The value given to the nearest manager, from this one up, that was given one. */
  ghost function Lookup(m: ConfigManager, name: string, all: set<ConfigManager>): string
    requires m in all && forall c :: c in all && c.parent != null ==> c.parent in all && c.depth == c.parent.depth + 1
    reads all
    decreases m.depth
  {
    if name in m.own then m.own[name]
    else if m.parent != null then Lookup(m.parent, name, all)
    else ""
  }

  /** The copies that were pushed down agree with the lookup. */
  lemma {:induction false} CopyAgrees(m: ConfigManager, name: string, all: set<ConfigManager>, es: set<Entry>)
    requires Valid(all, es) && m in all && name in m.config
    ensures m.config[name].value == Lookup(m, name, all)
    decreases m.depth
  {
    var e := m.config[name];
    assert Sourced(e) && Copied(e);
    if name !in m.own && m.parent != null {
      CopyAgrees(m.parent, name, all, es);
    }
  }

  // ---------------------------------------------------------------- operations

  method Get(m: ConfigManager, name: string, ghost all: set<ConfigManager>, ghost es: set<Entry>) returns (v: string)
    requires Valid(all, es) && m in all
    ensures v == Lookup(m, name, all)
    decreases m.depth
  {
    if name in m.config {
      CopyAgrees(m, name, all, es);
      return m.config[name].value;
    }
    if m.parent == null {
      return "";
    }
    v := Get(m.parent, name, all, es);
  }

  ghost function Deeper(es: set<Entry>, depth: nat): set<Entry> {
    set e | e in es && e.owner.depth > depth
  }

  lemma DeeperLess(es: set<Entry>, e: Entry, child: Entry)
    requires child in es && child.owner.depth > e.owner.depth
    ensures Deeper(es, child.owner.depth) < Deeper(es, e.owner.depth)
  {
    assert child in Deeper(es, e.owner.depth) && child !in Deeper(es, child.owner.depth);
    assert Deeper(es, child.owner.depth) <= Deeper(es, e.owner.depth);
  }

  lemma ChildDeeper(child: Entry, all: set<ConfigManager>, es: set<Entry>)
    requires Placed(all, es) && Registered(es) && child in es && child.reg != null
    ensures child.reg in es && child.owner.depth == child.reg.owner.depth + 1 && child.reg != child
    ensures exists i :: 0 <= i < |child.reg.onChanged| && child.reg.onChanged[i] == child
  {}

  /** The signal of an entry that has a new value: every entry registered with it takes the value and signals
      in its turn. Entries in `pending` are registered with entries further up, still to be told. */
  method OnChanged(e: Entry, ghost all: set<ConfigManager>, ghost es: set<Entry>, ghost pending: set<Entry>)
    requires Placed(all, es) && Registered(es) && e in es
    requires forall x :: x in es && x !in pending && x.reg != e ==> Copied(x)
    requires forall x :: x in pending ==> x.owner.depth <= e.owner.depth
    modifies es`value
    ensures Placed(all, es) && Registered(es)
    ensures forall x :: x in es && x !in pending ==> Copied(x)
    ensures forall x :: x in es && (x.owner.depth <= e.owner.depth || x.reg == null) ==> x.value == old(x.value)
    decreases Deeper(es, e.owner.depth), 0
  {
    hide Deeper, Placed;
    for i := 0 to |e.onChanged|
      invariant Placed(all, es) && Registered(es)
      invariant forall x :: x in es && x !in pending && x.reg != e ==> Copied(x)
      invariant forall j :: 0 <= j < i ==> Copied(e.onChanged[j])
      invariant forall x :: x in es && (x.owner.depth <= e.owner.depth || x.reg == null) ==> x.value == old(x.value)
    {
      var child := e.onChanged[i];
      ghost var later := set j | i < j < |e.onChanged| :: e.onChanged[j];
      assert child in es && child.reg == e;
      ChildDeeper(child, all, es);
      DeeperLess(es, e, child);
      OnlyLater(e, i, all, es, pending);
      Take(child, all, es, pending + later);
    }
    forall x | x in es && x !in pending ensures Copied(x) {
      if x.reg == e { ChildDeeper(x, all, es); }
    }
  }

  lemma OnlyLater(e: Entry, i: nat, all: set<ConfigManager>, es: set<Entry>, pending: set<Entry>)
    requires Placed(all, es) && Registered(es) && e in es && i < |e.onChanged|
    requires forall x :: x in es && x !in pending && x.reg != e ==> Copied(x)
    requires forall j :: 0 <= j < i ==> Copied(e.onChanged[j])
    ensures var later := set j | i < j < |e.onChanged| :: e.onChanged[j];
      && e.onChanged[i] !in later
      && (forall x :: x in later ==> x.owner.depth == e.owner.depth + 1)
      && forall x :: x in es && x !in pending && x !in later && x != e.onChanged[i] ==> Copied(x)
  {
    var later := set j | i < j < |e.onChanged| :: e.onChanged[j];
    forall x | x in later ensures x.owner.depth == e.owner.depth + 1 {
      var j :| i < j < |e.onChanged| && x == e.onChanged[j];
      ChildDeeper(x, all, es);
    }
    forall x | x in es && x !in pending && x !in later && x != e.onChanged[i] ensures Copied(x) {
      if x.reg == e { ChildDeeper(x, all, es); }
    }
  }

  /** One registered entry takes the value, if it is still registered, and signals. */
  method Take(e: Entry, ghost all: set<ConfigManager>, ghost es: set<Entry>, ghost pending: set<Entry>)
    requires Placed(all, es) && Registered(es) && e in es && e.reg != null && e !in pending
    requires forall x :: x in es && x !in pending && x != e ==> Copied(x)
    requires forall x :: x in pending ==> x.owner.depth <= e.owner.depth
    modifies es`value
    ensures Placed(all, es) && Registered(es)
    ensures forall x :: x in es && x !in pending ==> Copied(x)
    ensures forall x :: x in es && x != e && (x.owner.depth <= e.owner.depth || x.reg == null) ==>
        x.value == old(x.value)
    decreases Deeper(es, e.owner.depth), 1
  {
    hide Deeper;
    ChildDeeper(e, all, es);
    if e.reg == null {
      return;
    }
    e.value := e.reg.value;
    assert Placed(all, es) && Registered(es);
    forall x | x in es && x !in pending && x.reg != e ensures Copied(x) {
      if x != e { assert old(Copied(x)); }
    }
    OnChanged(e, all, es, pending);
  }

  /** Takes an entry out of the list it is registered in. */
  method Unregister(e: Entry, ghost all: set<ConfigManager>, ghost es: set<Entry>)
    requires Placed(all, es) && Registered(es) && e in es && e.reg != null
    requires forall x :: x in es ==> Copied(x)
    modifies e`reg, e.reg`onChanged
    ensures Placed(all, es) && Registered(es) && e.reg == null
    ensures forall x :: x in es ==> Copied(x)
    ensures forall x :: x in es && x != e ==> x.reg == old(x.reg)
  {
    hide Placed;
    var p := e.reg;
    ChildDeeper(e, all, es);
    var k := 0;
    while p.onChanged[k] != e
      invariant 0 <= k < |p.onChanged| && forall i :: 0 <= i < k ==> p.onChanged[i] != e
      decreases |p.onChanged| - k
    {
      k := k + 1;
    }
    ghost var was := p.onChanged;
    p.onChanged := p.onChanged[..k] + p.onChanged[k + 1..];
    e.reg := null;
    Without(was, k);
    assert Registered(es);
  }

  lemma Without(q: seq<Entry>, k: nat)
    requires k < |q| && forall i, j :: 0 <= i < j < |q| ==> q[i] != q[j]
    ensures var r := q[..k] + q[k + 1..];
      && (forall x :: x in r <==> x in q && x != q[k])
      && forall i, j :: 0 <= i < j < |r| ==> r[i] != r[j]
  {
    var r := q[..k] + q[k + 1..];
    forall x | x in q && x != q[k] ensures x in r {
      var i :| 0 <= i < |q| && q[i] == x;
      assert r[if i < k then i else i - 1] == x;
    }
  }

  /** Adds an entry that is not registered with anyone. */
  method NewEntry(m: ConfigManager, name: string, ghost all: set<ConfigManager>, ghost es: set<Entry>)
    returns (e: Entry)
    requires Placed(all, es) && Registered(es) && m in all && name !in m.config
    requires forall x :: x in es ==> Copied(x)
    modifies m`config
    ensures fresh(e) && e.owner == m && e.name == name && e.reg == null && e.value == "" && e.onChanged == []
    ensures m.config == old(m.config)[name := e]
    ensures Placed(all, es + {e}) && Registered(es + {e})
    ensures forall x :: x in es + {e} ==> Copied(x)
  {
    e := new Entry(m, name);
    m.config := m.config[name := e];
    forall x | x in es + {e} ensures Copied(x) {
      if x in es { assert old(Copied(x)); }
    }
  }

  /** The entry of a manager, no longer registered, if necessary a new one. */
  method Claim(m: ConfigManager, name: string, ghost all: set<ConfigManager>, ghost es: set<Entry>)
    returns (e: Entry, ghost es': set<Entry>)
    requires Placed(all, es) && Registered(es) && m in all
    requires forall x :: x in es ==> Copied(x)
    modifies m`config, es`reg, es`onChanged
    ensures Placed(all, es') && Registered(es')
    ensures forall x :: x in es' ==> Copied(x)
    ensures e in es' && e.owner == m && e.name == name && e.reg == null && es' == es + {e} && fresh(es' - es)
    ensures name in m.config
    ensures forall x :: x in es && x != e ==> x.reg == old(x.reg)
  {
    hide Placed, Copied;
    if name in m.config {
      InConfig(m, name, all, es);
      e := m.config[name];
      es' := es;
      if e.reg != null {
        Unregister(e, all, es);
      }
    } else {
      e := NewEntry(m, name, all, es);
      es' := es + {e};
    }
  }

  lemma OneEntry(x: Entry, e: Entry, all: set<ConfigManager>, es: set<Entry>)
    requires Placed(all, es) && x in es && e in es && x != e
    ensures x.owner in all && (x.owner != e.owner || x.name != e.name)
  {}

  lemma NotOwn(m: ConfigManager, name: string, all: set<ConfigManager>, es: set<Entry>)
    requires Placed(all, es) && m in all && name !in m.config
    ensures name !in m.own
    ensures m.parent != null ==> m.parent in all && m.parent.depth < m.depth
  {}

  lemma InConfig(m: ConfigManager, name: string, all: set<ConfigManager>, es: set<Entry>)
    requires Placed(all, es) && m in all && name in m.config
    ensures m.config[name] in es && m.config[name].owner == m && m.config[name].name == name
  {}

  method Record(m: ConfigManager, name: string, v: string, ghost all: set<ConfigManager>, ghost es: set<Entry>)
    requires Placed(all, es) && m in all && name in m.config
    modifies m`own
    ensures Placed(all, es) && m.own == old(m.own)[name := v]
  {
    ghost var own := m.own[name := v];
    m.own := own;
  }

  /** A manager is given a value of its own, which its entry does not have yet. */
  method Own(m: ConfigManager, name: string, v: string, ghost all: set<ConfigManager>, ghost es: set<Entry>)
    returns (e: Entry, ghost es': set<Entry>)
    requires Valid(all, es) && m in all
    modifies m, es`reg, es`onChanged
    ensures Placed(all, es') && Registered(es') && e in es' && e.owner == m && e.name == name && e.reg == null
    ensures es <= es' && fresh(es' - es)
    ensures forall x :: x in es' ==> Copied(x) && (x != e ==> Sourced(x))
    ensures m.own == old(m.own)[name := v]
  {
    hide Registered, Copied, Placed;
    e, es' := Claim(m, name, all, es);
    Record(m, name, v, all, es');
    forall x | x in es' && x != e ensures Sourced(x) {
      assert x in es && old(Sourced(x));
      OneEntry(x, e, all, es');
    }
  }

  /** A new value for an entry that is not registered. */
  method Assign(e: Entry, v: string, ghost all: set<ConfigManager>, ghost es: set<Entry>)
    requires Placed(all, es) && Registered(es) && e in es && e.reg == null
    requires e.name in e.owner.own && e.owner.own[e.name] == v
    requires forall x :: x in es ==> Copied(x) && (x != e ==> Sourced(x))
    modifies es`value
    ensures Valid(all, es)
  {
    hide Placed;
    e.value := v;
    assert Registered(es);
    forall x | x in es && x.reg != e ensures Copied(x) { assert old(Copied(x)); }
    OnChanged(e, all, es, {});
    forall x | x in es ensures Sourced(x) {
      if x != e { assert old(Sourced(x)); }
    }
  }

  /** Gives a manager a value of its own, whatever its parent has, and tells everyone below. */
  method Set(m: ConfigManager, name: string, v: string, ghost all: set<ConfigManager>, ghost es: set<Entry>)
    returns (ghost es': set<Entry>)
    requires Valid(all, es) && m in all
    modifies m, es
    ensures Valid(all, es') && es <= es' && fresh(es' - es)
    ensures m.own == old(m.own)[name := v]
    ensures forall c :: c in all && c != m ==> c.own == old(c.own)
  {
    hide Registered, Copied, Placed, Sourced;
    var e;
    e, es' := Own(m, name, v, all, es);
    Assign(e, v, all, es');
  }

  /** Registers a new entry with the parent's and takes its value. */
  method Register(e: Entry, p: Entry, ghost all: set<ConfigManager>, ghost es: set<Entry>)
    requires Placed(all, es) && Registered(es) && e in es && p in es
    requires forall x :: x in es ==> Copied(x)
    requires e.reg == null && e.onChanged == [] && e.owner.parent == p.owner && e.name == p.name
    modifies e`reg, e`value, p`onChanged
    ensures Placed(all, es) && Registered(es)
    ensures forall x :: x in es ==> Copied(x)
    ensures e.reg == p
  {
    hide Placed;
    assert e.owner in all && p != e by { ParentEntry(e, p, all, es); }
    assert forall i :: 0 <= i < |p.onChanged| ==> p.onChanged[i] != e;
    ghost var was := p.onChanged;
    p.onChanged := p.onChanged + [e];
    e.reg := p;
    e.value := p.value;
    assert p.onChanged[|was|] == e;
    assert Registered(es);
    forall x | x in es ensures Copied(x) {
      if x != e { assert old(Copied(x)); }
    }
  }

  lemma ParentEntry(e: Entry, p: Entry, all: set<ConfigManager>, es: set<Entry>)
    requires Placed(all, es) && e in es && p in es && e.owner.parent == p.owner
    ensures e.owner in all && p != e
  {}

  /** Adds an entry to the root. */
  method AddRoot(m: ConfigManager, name: string, ghost all: set<ConfigManager>, ghost es: set<Entry>) returns (e: Entry)
    requires Valid(all, es) && m in all && name !in m.config && m.parent == null
    modifies m`config
    ensures fresh(e) && e.owner == m && e.name == name && m.config == old(m.config)[name := e] && Valid(all, es + {e})
  {
    hide Registered, Copied, Placed;
    NotOwn(m, name, all, es);
    e := NewEntry(m, name, all, es);
    forall x | x in es ensures Sourced(x) { assert old(Sourced(x)); }
  }

  /** Adds an entry that takes its value from the parent's. */
  method AddBelow(m: ConfigManager, name: string, p: Entry, ghost all: set<ConfigManager>, ghost es: set<Entry>)
    returns (e: Entry)
    requires Valid(all, es) && m in all && name !in m.config && p in es && m.parent == p.owner && p.name == name
    modifies m`config, p`onChanged
    ensures fresh(e) && e.owner == m && e.name == name && m.config == old(m.config)[name := e] && Valid(all, es + {e})
  {
    hide Registered, Copied, Placed;
    NotOwn(m, name, all, es);
    e := NewEntry(m, name, all, es);
    Register(e, p, all, es + {e});
    forall x | x in es ensures Sourced(x) { assert old(Sourced(x)); }
  }

  /** The entry of a manager, which takes its value from the parent's when it is new. */
  method GetEntry(m: ConfigManager, name: string, ghost all: set<ConfigManager>, ghost es: set<Entry>)
    returns (e: Entry, ghost es': set<Entry>)
    requires Valid(all, es) && m in all
    modifies all`config, es`onChanged
    ensures Valid(all, es') && es <= es' && fresh(es' - es)
    ensures name in m.config && m.config[name] == e && e in es' && e.owner == m && e.name == name
    ensures forall c :: c in all && c.depth > m.depth ==> c.config == old(c.config)
    decreases m.depth
  {
    hide Registered, Copied, Placed, Sourced;
    if name in m.config {
      InConfig(m, name, all, es);
      return m.config[name], es;
    }
    NotOwn(m, name, all, es);
    if m.parent == null {
      e := AddRoot(m, name, all, es);
      es' := es + {e};
    } else {
      var p;
      p, es' := GetEntry(m.parent, name, all, es);
      e := AddBelow(m, name, p, all, es');
      es' := es' + {e};
    }
  }
}
