/** Per-scope build slots: who holds which, and where their workspaces are.
    The number of slots is a parameter `n`. */
module Slots {
  import opened Wrappers
  import opened Strings
  import opened Paths

  /** A table row: one flag per slot. */
  type Row = seq<bool>
  type ScopeKey = (string, string)

  datatype SlotGuard = SlotGuard(key: ScopeKey, index: nat)

  const FNV_OFFSET: bv64 := 14695981039346656037
  const FNV_PRIME: bv64 := 1099511628211

  /** One round: xor in a byte, then a multiplication that wraps at 64 bits. */
  function FnvStep(h: bv64, b: bv8): bv64 {
    (h ^ (b as bv64)) * FNV_PRIME
  }

  /** FNV-1a over the bytes of a login. */
  function Fnv(login: seq<bv8>): bv64 {
    if login == [] then FNV_OFFSET else FnvStep(Fnv(login[..|login| - 1]), login[|login| - 1])
  }

  lemma FnvFooValues()
    ensures Fnv([102]) == 0xaf63db4c8601ead9 && Fnv([102, 111]) == 0x8985907b541d342 && Fnv([102, 111, 111]) == 0xdcb27518fed9d577
  {
    FnvMore([], 102);
    FnvMore([102], 111);
    FnvMore([102, 111], 111);
    assert [] + [102 as bv8] == [102] && [102 as bv8] + [111] == [102, 111] && [102 as bv8, 111] + [111] == [102, 111, 111];
    assert FnvStep(FNV_OFFSET, 102) == 0xaf63db4c8601ead9;
    assert FnvStep(0xaf63db4c8601ead9, 111) == 0x8985907b541d342;
    assert FnvStep(0x8985907b541d342, 111) == 0xdcb27518fed9d577;
  }

  lemma FnvBarValues()
    ensures Fnv([102, 111, 111, 98]) == 0xdd120e790c2512af && Fnv([102, 111, 111, 98, 97]) == 0xcac165afa2fef40a
  {
    FnvFooValues();
    FnvMore([102, 111, 111], 98);
    FnvMore([102, 111, 111, 98], 97);
    assert [102 as bv8, 111, 111] + [98] == [102, 111, 111, 98];
    assert [102 as bv8, 111, 111, 98] + [97] == [102, 111, 111, 98, 97];
    assert FnvStep(0xdcb27518fed9d577, 98) == 0xdd120e790c2512af;
    assert FnvStep(0xdd120e790c2512af, 97) == 0xcac165afa2fef40a;
  }

  /** The function's published values for the empty string, for `a` and for
      `foobar`. */
  lemma FnvValues()
    ensures Fnv([]) == 0xcbf29ce484222325
    ensures Fnv([97]) == 0xaf63dc4c8601ec8c
    ensures Fnv([102, 111, 111, 98, 97, 114]) == 0x85944171f73967e8
  {
    FnvMore([], 97);
    assert [] + [97 as bv8] == [97] && FnvStep(FNV_OFFSET, 97) == 0xaf63dc4c8601ec8c;
    FnvBarValues();
    FnvMore([102, 111, 111, 98, 97], 114);
    assert [102 as bv8, 111, 111, 98, 97] + [114] == [102, 111, 111, 98, 97, 114];
    assert FnvStep(0xcac165afa2fef40a, 114) == 0x85944171f73967e8;
  }

  lemma FnvMore(s: seq<bv8>, b: bv8)
    ensures Fnv(s + [b]) == FnvStep(Fnv(s), b)
  {
    assert (s + [b])[..|s|] == s;
  }

  function Preferred(login: seq<bv8>, n: nat): (slot: nat)
    requires n >= 1
    ensures slot < n
  {
    (Fnv(login) as nat) % n
  }

  /** So a login has one preferred slot, whichever daemon is asked. */
  lemma PreferredOfA(n: nat)
    requires n >= 1
    ensures Preferred([97], n) == 0xaf63dc4c8601ec8c % n
  {
    FnvValues();
  }

  method HashLogin(login: seq<bv8>) returns (h: bv64)
    ensures h == Fnv(login)
  {
    h := FNV_OFFSET;
    var i := 0;
    while i < |login|
      invariant 0 <= i <= |login|
      invariant h == Fnv(login[..i])
    {
      assert login[..i + 1][..i] == login[..i];
      h := FnvStep(h, login[i]);
      i := i + 1;
    }
    assert login[..|login|] == login;
  }

  method SlotForUser(login: seq<bv8>, n: nat) returns (slot: nat)
    requires n >= 1
    ensures slot == Preferred(login, n)
  {
    var h := HashLogin(login);
    slot := (h as nat) % n;
  }

  /** The slot an acquisition takes: the preferred one if it is free, else the
      lowest free one. */
  ghost predicate Chosen(row: Row, preferred: nat, choice: Option<nat>)
    requires preferred < |row|
  {
    match choice
    case None => forall i | 0 <= i < |row| :: row[i]
    case Some(k) =>
      && k < |row|
      && !row[k]
      && (k != preferred ==> row[preferred] && forall i | 0 <= i < k :: row[i])
  }

  /** A choice is determined by the row and the preference. */
  lemma ChosenUnique(row: Row, preferred: nat, a: Option<nat>, b: Option<nat>)
    requires preferred < |row| && Chosen(row, preferred, a) && Chosen(row, preferred, b)
    ensures a == b
  {
  }

  function LowestFree(row: Row, from: nat): (choice: Option<nat>)
    requires from <= |row|
    ensures choice.Some? ==> from <= choice.value < |row| && !row[choice.value] && forall i | from <= i < choice.value :: row[i]
    ensures choice.None? ==> forall i | from <= i < |row| :: row[i]
    decreases |row| - from
  {
    if from == |row| then None else if !row[from] then Some(from) else LowestFree(row, from + 1)
  }

  function Pick(row: Row, preferred: nat): (choice: Option<nat>)
    requires preferred < |row|
    ensures Chosen(row, preferred, choice)
  {
    if !row[preferred] then Some(preferred) else LowestFree(row, 0)
  }

  /** `order.find(|&i| !slots[i])` over the preferred slot and then the others. */
  method FirstFree(row: Row, preferred: nat) returns (choice: Option<nat>)
    requires preferred < |row|
    ensures Chosen(row, preferred, choice)
  {
    if !row[preferred] {
      return Some(preferred);
    }
    var i := 0;
    while i < |row|
      invariant 0 <= i <= |row|
      invariant forall j | 0 <= j < i :: row[j]
    {
      if i != preferred && !row[i] {
        return Some(i);
      }
      i := i + 1;
    }
    choice := None;
  }

  class SlotTable {
    const n: nat
    var table: map<ScopeKey, Row>
    /** The guards handed out and not yet dropped. */
    ghost var live: set<SlotGuard>

    /** A flag is set exactly while one live guard stands for that slot. */
    ghost predicate Valid()
      reads this
    {
      && n >= 1
      && (forall key <- table :: |table[key]| == n)
      && (forall g <- live :: g.key in table && g.index < n)
      && (forall key, i | key in table && 0 <= i < n :: table[key][i] <==> SlotGuard(key, i) in live)
    }

    constructor (slots: nat)
      requires slots >= 1
      ensures Valid() && live == {} && n == slots
    {
      n := slots;
      table := map[];
      live := {};
    }

    method TryAcquire(team: string, scope: string, login: seq<bv8>) returns (guard: Option<SlotGuard>)
      requires Valid()
      modifies this
      ensures Valid()
      ensures guard.None? ==> live == old(live) && forall i | 0 <= i < n :: SlotGuard((team, scope), i) in live
      ensures guard.Some? ==>
                && guard.value !in old(live) && live == old(live) + {guard.value}
                && guard.value.key == (team, scope) && guard.value.index < n
                && var preferred := Preferred(login, n);
                   guard.value.index != preferred ==>
                     SlotGuard((team, scope), preferred) in old(live)
                     && forall i | 0 <= i < guard.value.index :: SlotGuard((team, scope), i) in old(live)
    {
      var key := (team, scope);
      if key !in table {
        table := table[key := seq(n, _ => false)];
      }
      var preferred := SlotForUser(login, n);
      var choice := FirstFree(table[key], preferred);
      if choice.None? {
        return None;
      }
      table := table[key := table[key][choice.value := true]];
      live := live + {SlotGuard(key, choice.value)};
      guard := Some(SlotGuard(key, choice.value));
    }

    /** `SlotGuard::drop`. */
    method Drop(guard: SlotGuard)
      requires Valid() && guard in live
      modifies this
      ensures Valid() && live == old(live) - {guard}
    {
      if guard.key in table {
        table := table[guard.key := table[guard.key][guard.index := false]];
      }
      live := live - {guard};
    }
  }

  const DIGITS := "0123456789"

  function Decimal(n: nat): string {
    if n < 10 then [DIGITS[n]] else Decimal(n / 10) + [DIGITS[n % 10]]
  }

  lemma {:induction false} DecimalInjective(a: nat, b: nat)
    requires Decimal(a) == Decimal(b)
    ensures a == b
    decreases a + b
  {
    var x, y := Decimal(a), Decimal(b);
    DecimalNotEmpty(a / 10);
    DecimalNotEmpty(b / 10);
    assert x[|x| - 1] == DIGITS[a % 10] && y[|y| - 1] == DIGITS[b % 10];
    if a >= 10 && b >= 10 {
      assert x[..|x| - 1] == Decimal(a / 10) && y[..|y| - 1] == Decimal(b / 10);
      DecimalInjective(a / 10, b / 10);
    }
  }

  lemma DecimalNotEmpty(n: nat)
    ensures Decimal(n) != ""
  {
  }

  lemma DecimalDigits(n: nat)
    ensures '/' !in Decimal(n)
  {
  }

  /** `SlotGuard::workspace`. */
  function WorkspacePath(home: string, team: string, scope: string, index: nat): string {
    home + "/" + (team + "_" + scope) + "/slot" + Decimal(index)
  }

  /** The directory `SlotGuard::workspace` names, component by component: paths
      are the same exactly when these are. */
  function Workspace(home: string, team: string, scope: string, index: nat): seq<string> {
    Components(WorkspacePath(home, team, scope, index))
  }

  /** What team and scope add to a path once joined. */
  function Folder(team: string, scope: string): seq<string> {
    Named(Split(team + "_" + scope, '/'))
  }

  lemma WorkspaceParts(home: string, team: string, scope: string, index: nat)
    ensures Workspace(home, team, scope, index) == Components(home + ['/'] + "") + Folder(team, scope) + ["slot" + Decimal(index)]
  {
    var joined, slot := team + "_" + scope, "slot" + Decimal(index);
    var within := joined + ['/'] + slot;
    assert WorkspacePath(home, team, scope, index) == home + ['/'] + within;
    ComponentsConcat(home, within);
    NamesConcat(joined, slot);
    DecimalDigits(index);
    SplitNone(slot, '/');
    OneName(slot);
    Assoc(Components(home + ['/'] + ""), Folder(team, scope), [slot]);
  }

  lemma OneName(name: string)
    requires name != "" && name != "."
    ensures Named([name]) == [name]
  {
    assert [name][1..] == Named([]);
  }

  /** Exactly when two slots share a workspace: the same slot number, and team
      and scope that name the same folders once joined by an underscore. */
  lemma WorkspacesCoincide(home: string, t: string, s: string, i: nat, t': string, s': string, j: nat)
    ensures Workspace(home, t, s, i) == Workspace(home, t', s', j) <==> i == j && Folder(t, s) == Folder(t', s')
  {
    WorkspaceParts(home, t, s, i);
    WorkspaceParts(home, t', s', j);
    var base := Components(home + ['/'] + "");
    var a, b := Workspace(home, t, s, i), Workspace(home, t', s', j);
    if a == b {
      SlotsDiffer(i, j);
      assert a[|a| - 1] == "slot" + Decimal(i) && b[|b| - 1] == "slot" + Decimal(j);
      assert a[|base|..|a| - 1] == Folder(t, s) && b[|base|..|b| - 1] == Folder(t', s');
    }
  }

  lemma SlotsDiffer(i: nat, j: nat)
    ensures "slot" + Decimal(i) == "slot" + Decimal(j) <==> i == j
  {
    assert ("slot" + Decimal(i))[4..] == Decimal(i) && ("slot" + Decimal(j))[4..] == Decimal(j);
    if Decimal(i) == Decimal(j) { DecimalInjective(i, j); }
  }

  /** A team without an underscore, and neither it nor the scope with a slash. */
  predicate PlainNames(key: ScopeKey) {
    '_' !in key.0 && '/' !in key.0 && '/' !in key.1
  }

  lemma PlainFolder(key: ScopeKey)
    requires PlainNames(key)
    ensures Folder(key.0, key.1) == [key.0 + "_" + key.1]
  {
    var joined := key.0 + "_" + key.1;
    SplitNone(joined, '/');
    assert joined[|key.0|] == '_';
    assert joined != "" && joined != ".";
    OneName(joined);
  }

  /** Of all that a workspace's path is made of only the home directory can put
      it under a folder named `target`. */
  lemma WorkspaceUnderTarget(home: string, key: ScopeKey, index: nat)
    requires PlainNames(key)
    ensures "target" in Workspace(home, key.0, key.1, index) <==> "target" in Components(home + ['/'] + "")
  {
    WorkspaceParts(home, key.0, key.1, index);
    PlainFolder(key);
    assert (key.0 + "_" + key.1)[|key.0|] == '_' && '_' !in "target";
    assert ("slot" + Decimal(index))[0] == 's' && "target"[0] == 't';
  }

  /** Plain names keep every slot's workspace to itself: no two are the same, and
      none lies inside another. */
  lemma WorkspacesDistinct(home: string, g: SlotGuard, h: SlotGuard)
    requires PlainNames(g.key) && PlainNames(h.key)
    requires Workspace(home, g.key.0, g.key.1, g.index) <= Workspace(home, h.key.0, h.key.1, h.index)
    ensures g == h
  {
    var a, b := Workspace(home, g.key.0, g.key.1, g.index), Workspace(home, h.key.0, h.key.1, h.index);
    WorkspaceParts(home, g.key.0, g.key.1, g.index);
    WorkspaceParts(home, h.key.0, h.key.1, h.index);
    PlainFolder(g.key);
    PlainFolder(h.key);
    assert |a| == |b| && a == b;
    WorkspacesCoincide(home, g.key.0, g.key.1, g.index, h.key.0, h.key.1, h.index);
    assert g.key.0 + "_" + g.key.1 == Folder(g.key.0, g.key.1)[0] == Folder(h.key.0, h.key.1)[0] == h.key.0 + "_" + h.key.1;
    FirstSplit(g.key.0, h.key.0, g.key.1, h.key.1, '_');
  }

  /** With an underscore in a team's name two live guards can share one. */
  lemma UnderscoredTeamsCollide(home: string)
    ensures Workspace(home, "a_b", "c", 0) == Workspace(home, "a", "b_c", 0)
  {
    assert "a_b" + "_" + "c" == "a" + "_" + "b_c";
  }

  /** So can a scope and the same scope with a slash behind it. */
  lemma SlashedScopesCollide(home: string, team: string, scope: string, index: nat)
    ensures Workspace(home, team, scope + "/", index) == Workspace(home, team, scope, index)
  {
    assert team + "_" + (scope + "/") == (team + "_" + scope) + ['/'] + "";
    NamesConcat(team + "_" + scope, "");
    assert Named([""]) == [] && Split("", '/') == [""];
    WorkspacesCoincide(home, team, scope + "/", index, team, scope, index);
  }

  /** And one workspace can lie inside another. */
  lemma SlashedScopesNest(home: string, team: string, scope: string, index: nat)
    ensures Workspace(home, team, scope, 0) < Workspace(home, team, scope + "/slot0", index)
  {
    var joined := team + "_" + scope;
    assert "slot" + Decimal(0) == "slot0";
    assert team + "_" + (scope + "/slot0") == joined + ['/'] + "slot0";
    NamesConcat(joined, "slot0");
    SplitNone("slot0", '/');
    OneName("slot0");
    WorkspaceParts(home, team, scope, 0);
    WorkspaceParts(home, team, scope + "/slot0", index);
    assert Workspace(home, team, scope + "/slot0", index)
        == Workspace(home, team, scope, 0) + ["slot" + Decimal(index)];
  }
}
