/** The in-memory bookmark store of bkmk (internal/config/config.go): an
    ordered list of named groups, each an ordered list of commands carrying a
    global numeric ID drawn from a counter. */
module ConfigStore {
  import opened Wrappers
  import opened Text

  /** Backups kept by `pruneBackups`. */
  const MaxBackups: nat := 20

  /** The three action names; an empty action string also occurs (an
      unset `default_action`, or "keep the current one" on update). */
  const ActionNone: string := "none"
  const ActionCopy: string := "copy"
  const ActionRun: string := "run"

  datatype Command = Command(id: int, name: string, command: string, description: string, defaultAction: string)

  datatype Group = Group(name: string, commands: seq<Command>)

  /** A command together with the name of the group that holds it. */
  datatype FlatCommand = FlatCommand(id: int, groupName: string, name: string, command: string,
                                     description: string, defaultAction: string)

  /** The distinct error results of the store operations. */
  datatype ConfigError =
    | GroupExists(group: string)
    | GroupNotFound(group: string)
    | CommandExists(command: string, group: string)
    | CommandNotFound(command: string, group: string)
    | IdNotFound(id: int)

  // ---------------------------------------------------------------------
  // Lookups: each returns the first match, or -1

  function GroupIndex(gs: seq<Group>, name: string): (r: int)
    ensures -1 <= r < |gs|
    ensures r == -1 <==> (forall k :: 0 <= k < |gs| ==> gs[k].name != name)
    ensures r >= 0 ==> gs[r].name == name && (forall k :: 0 <= k < r ==> gs[k].name != name)
  {
    if gs == [] then -1
    else if gs[0].name == name then 0
    else
      var r := GroupIndex(gs[1..], name);
      if r < 0 then -1 else r + 1
  }

  /** A command is found by its name or by its ID written in decimal. */
  predicate Matches(c: Command, key: string)
  {
    c.name == key || Itoa(c.id) == key
  }

  function CommandIndex(cs: seq<Command>, key: string): (r: int)
    ensures -1 <= r < |cs|
    ensures r == -1 <==> (forall k :: 0 <= k < |cs| ==> !Matches(cs[k], key))
    ensures r >= 0 ==> Matches(cs[r], key) && (forall k :: 0 <= k < r ==> !Matches(cs[k], key))
  {
    if cs == [] then -1
    else if Matches(cs[0], key) then 0
    else
      var r := CommandIndex(cs[1..], key);
      if r < 0 then -1 else r + 1
  }

  function IdIndex(cs: seq<Command>, id: int): (r: int)
    ensures -1 <= r < |cs|
    ensures r == -1 <==> (forall k :: 0 <= k < |cs| ==> cs[k].id != id)
    ensures r >= 0 ==> cs[r].id == id && (forall k :: 0 <= k < r ==> cs[k].id != id)
  {
    if cs == [] then -1
    else if cs[0].id == id then 0
    else
      var r := IdIndex(cs[1..], id);
      if r < 0 then -1 else r + 1
  }

  /** The group index of the first group holding a command with `id`, or -1. */
  function IdGroup(gs: seq<Group>, id: int): (r: int)
    ensures -1 <= r < |gs|
    ensures r == -1 <==> (forall i :: 0 <= i < |gs| ==> IdIndex(gs[i].commands, id) == -1)
    ensures r >= 0 ==> (IdIndex(gs[r].commands, id) >= 0
      && (forall i :: 0 <= i < r ==> IdIndex(gs[i].commands, id) == -1))
  {
    if gs == [] then -1
    else if IdIndex(gs[0].commands, id) >= 0 then 0
    else
      var r := IdGroup(gs[1..], id);
      if r < 0 then -1 else r + 1
  }

  /** Some command other than the one at `except` has `name`. */
  predicate NameTaken(cs: seq<Command>, name: string, except: int)
  {
    exists k :: 0 <= k < |cs| && k != except && cs[k].name == name
  }

  // ---------------------------------------------------------------------
  // Store changes, as functions of the group list

  function RemoveAt<T>(s: seq<T>, i: nat): (r: seq<T>)
    requires i < |s|
    ensures |r| == |s| - 1
    ensures forall k :: 0 <= k < i ==> r[k] == s[k]
    ensures forall k :: i <= k < |r| ==> r[k] == s[k + 1]
  {
    s[..i] + s[i + 1..]
  }

  /** The groups with group `i`'s command list replaced. */
  function WithCommands(gs: seq<Group>, i: nat, cs: seq<Command>): (r: seq<Group>)
    requires i < |gs|
    ensures |r| == |gs| && r[i] == Group(gs[i].name, cs)
    ensures forall k :: 0 <= k < |gs| && k != i ==> r[k] == gs[k]
  {
    gs[i := Group(gs[i].name, cs)]
  }

  // ---------------------------------------------------------------------
  // Projections

  /** Every command, group by group (`AllCommands`). */
  function AllOf(gs: seq<Group>): seq<Command>
  {
    if gs == [] then [] else AllOf(gs[..|gs| - 1]) + gs[|gs| - 1].commands
  }

  function Flat(groupName: string, c: Command): FlatCommand
  {
    FlatCommand(c.id, groupName, c.name, c.command, c.description, c.defaultAction)
  }

  /** The command a flat entry was copied from. */
  function Unflat(f: FlatCommand): Command
  {
    Command(f.id, f.name, f.command, f.description, f.defaultAction)
  }

  function FlattenGroup(g: Group): (r: seq<FlatCommand>)
    ensures |r| == |g.commands|
    ensures forall k :: 0 <= k < |r| ==> r[k] == Flat(g.name, g.commands[k])
  {
    seq(|g.commands|, k requires 0 <= k < |g.commands| => Flat(g.name, g.commands[k]))
  }

  /** Every command with its group's name, group by group (`FlatCommands`). */
  function Flatten(gs: seq<Group>): seq<FlatCommand>
  {
    if gs == [] then [] else Flatten(gs[..|gs| - 1]) + FlattenGroup(gs[|gs| - 1])
  }

  lemma {:induction false} AllOfAppend(a: seq<Group>, b: seq<Group>)
    ensures AllOf(a + b) == AllOf(a) + AllOf(b)
  {
    if b != [] {
      assert (a + b)[..|a + b| - 1] == a + b[..|b| - 1];
      AllOfAppend(a, b[..|b| - 1]);
    } else {
      assert a + b == a;
    }
  }

  lemma AllOfSnoc(gs: seq<Group>, g: Group)
    ensures AllOf(gs + [g]) == AllOf(gs) + g.commands
  {
    assert (gs + [g])[..|gs|] == gs;
  }

  lemma {:induction false} FlattenAppend(a: seq<Group>, b: seq<Group>)
    ensures Flatten(a + b) == Flatten(a) + Flatten(b)
  {
    if b != [] {
      assert (a + b)[..|a + b| - 1] == a + b[..|b| - 1];
      FlattenAppend(a, b[..|b| - 1]);
    } else {
      assert a + b == a;
    }
  }

  /** `FlatCommands` is `AllCommands` with the group names attached: same
      length, same commands in the same order. */
  lemma {:induction false} FlattenMatchesAllOf(gs: seq<Group>)
    ensures |Flatten(gs)| == |AllOf(gs)|
    ensures forall k :: 0 <= k < |Flatten(gs)| ==> Unflat(Flatten(gs)[k]) == AllOf(gs)[k]
  {
    if gs != [] {
      FlattenMatchesAllOf(gs[..|gs| - 1]);
      var a := Flatten(gs[..|gs| - 1]);
      var g := gs[|gs| - 1];
      forall k | |a| <= k < |Flatten(gs)|
        ensures Unflat(Flatten(gs)[k]) == AllOf(gs)[k]
      {
        assert Flatten(gs)[k] == FlattenGroup(g)[k - |a|];
      }
    }
  }

  /** Each flat entry is a command of some group carrying that group's
      name, and each command of each group appears. */
  lemma {:induction false} FlattenMembership(gs: seq<Group>)
    ensures forall f :: f in Flatten(gs) <==>
      (exists i, j :: 0 <= i < |gs| && 0 <= j < |gs[i].commands| && f == Flat(gs[i].name, gs[i].commands[j]))
  {
    if gs != [] {
      var init := gs[..|gs| - 1];
      var g := gs[|gs| - 1];
      FlattenMembership(init);
      forall f | f in Flatten(gs)
        ensures exists i, j :: 0 <= i < |gs| && 0 <= j < |gs[i].commands| && f == Flat(gs[i].name, gs[i].commands[j])
      {
        if f in Flatten(init) {
          var i, j :| 0 <= i < |init| && 0 <= j < |init[i].commands| && f == Flat(init[i].name, init[i].commands[j]);
          assert gs[i] == init[i];
        } else {
          assert f in FlattenGroup(g);
          var j :| 0 <= j < |g.commands| && FlattenGroup(g)[j] == f;
        }
      }
      forall f, i, j | 0 <= i < |gs| && 0 <= j < |gs[i].commands| && f == Flat(gs[i].name, gs[i].commands[j])
        ensures f in Flatten(gs)
      {
        if i < |init| {
          assert gs[i] == init[i];
          assert f in Flatten(init);
        } else {
          assert FlattenGroup(g)[j] == f;
        }
      }
    }
  }

  // ---------------------------------------------------------------------
  // The ID invariant: IDs are pairwise distinct and below the counter

  /** The multiset of IDs of a command list. */
  function Ids(cs: seq<Command>): multiset<int>
  {
    if cs == [] then multiset{} else Ids(cs[..|cs| - 1]) + multiset{cs[|cs| - 1].id}
  }

  function IdBag(gs: seq<Group>): multiset<int>
  {
    Ids(AllOf(gs))
  }

  predicate IdsDistinct(gs: seq<Group>)
  {
    forall x :: x in IdBag(gs) ==> IdBag(gs)[x] == 1
  }

  predicate IdsBelow(gs: seq<Group>, nextID: int)
  {
    forall x :: x in IdBag(gs) ==> x < nextID
  }

  /** What the store keeps true of every ID it hands out. */
  predicate ValidIds(gs: seq<Group>, nextID: int)
  {
    IdsDistinct(gs) && IdsBelow(gs, nextID)
  }

  lemma {:induction false} IdsAppend(a: seq<Command>, b: seq<Command>)
    ensures Ids(a + b) == Ids(a) + Ids(b)
  {
    if b != [] {
      assert (a + b)[..|a + b| - 1] == a + b[..|b| - 1];
      IdsAppend(a, b[..|b| - 1]);
    } else {
      assert a + b == a;
    }
  }

  lemma {:induction false} IdsMember(cs: seq<Command>)
    ensures forall x :: x in Ids(cs) <==> exists k :: 0 <= k < |cs| && cs[k].id == x
  {
    if cs != [] {
      IdsMember(cs[..|cs| - 1]);
      var init := cs[..|cs| - 1];
      forall x | x in Ids(cs) ensures exists k :: 0 <= k < |cs| && cs[k].id == x {
        if x in Ids(init) {
          var k :| 0 <= k < |init| && init[k].id == x;
          assert cs[k].id == x;
        }
      }
      forall x, k | 0 <= k < |cs| && cs[k].id == x ensures x in Ids(cs) {
        if k < |init| {
          assert init[k].id == x;
        }
      }
    }
  }

  /** Taking out the command at `j` takes out one copy of its ID. */
  lemma IdsRemoveAt(cs: seq<Command>, j: nat)
    requires j < |cs|
    ensures forall x :: Ids(cs)[x] == Ids(RemoveAt(cs, j))[x] + (if x == cs[j].id then 1 else 0)
  {
    assert cs == cs[..j] + [cs[j]] + cs[j + 1..];
    IdsAppend(cs[..j] + [cs[j]], cs[j + 1..]);
    IdsAppend(cs[..j], [cs[j]]);
    IdsAppend(cs[..j], cs[j + 1..]);
    assert Ids([cs[j]]) == multiset{cs[j].id} by { assert [cs[j]][..0] == []; }
  }

  /** Replacing group `i`'s commands by `cs` trades their IDs for those of `cs`. */
  lemma IdBagWithCommands(gs: seq<Group>, i: nat, cs: seq<Command>)
    requires i < |gs|
    ensures forall x :: IdBag(WithCommands(gs, i, cs))[x] + Ids(gs[i].commands)[x] == IdBag(gs)[x] + Ids(cs)[x]
  {
    var r := WithCommands(gs, i, cs);
    assert gs == gs[..i] + [gs[i]] + gs[i + 1..];
    assert r == gs[..i] + [r[i]] + gs[i + 1..];
    AllOfAppend(gs[..i] + [gs[i]], gs[i + 1..]);
    AllOfAppend(gs[..i], [gs[i]]);
    AllOfAppend(gs[..i] + [r[i]], gs[i + 1..]);
    AllOfAppend(gs[..i], [r[i]]);
    assert AllOf([gs[i]]) == gs[i].commands by { assert [gs[i]][..0] == []; }
    assert AllOf([r[i]]) == cs by { assert [r[i]][..0] == []; }
    IdsAppend(AllOf(gs[..i]) + gs[i].commands, AllOf(gs[i + 1..]));
    IdsAppend(AllOf(gs[..i]), gs[i].commands);
    IdsAppend(AllOf(gs[..i]) + cs, AllOf(gs[i + 1..]));
    IdsAppend(AllOf(gs[..i]), cs);
  }

  /** `AddCommandWithAction`: appending a command with ID `nextID` to one
      group keeps the IDs distinct and below the bumped counter. */
  lemma AddCommandKeepsIds(gs: seq<Group>, nextID: int, i: nat, c: Command)
    requires i < |gs| && ValidIds(gs, nextID) && c.id == nextID
    ensures ValidIds(WithCommands(gs, i, gs[i].commands + [c]), nextID + 1)
  {
    var cs := gs[i].commands;
    var r := WithCommands(gs, i, cs + [c]);
    IdBagWithCommands(gs, i, cs + [c]);
    assert (cs + [c])[..|cs|] == cs;
    assert forall x :: IdBag(r)[x] == IdBag(gs)[x] + (if x == nextID then 1 else 0);
  }

  /** Removing one command keeps the invariant. */
  lemma RemoveCommandKeepsIds(gs: seq<Group>, nextID: int, i: nat, j: nat)
    requires i < |gs| && j < |gs[i].commands| && ValidIds(gs, nextID)
    ensures ValidIds(WithCommands(gs, i, RemoveAt(gs[i].commands, j)), nextID)
  {
    var r := WithCommands(gs, i, RemoveAt(gs[i].commands, j));
    IdBagWithCommands(gs, i, RemoveAt(gs[i].commands, j));
    IdsRemoveAt(gs[i].commands, j);
    assert forall x :: IdBag(r)[x] <= IdBag(gs)[x];
  }

  /** Rewriting a command in place without touching its ID leaves the IDs as they were. */
  lemma ReplaceCommandKeepsIds(gs: seq<Group>, i: nat, j: nat, c: Command)
    requires i < |gs| && j < |gs[i].commands| && c.id == gs[i].commands[j].id
    ensures IdBag(WithCommands(gs, i, gs[i].commands[j := c])) == IdBag(gs)
  {
    var cs := gs[i].commands;
    var r := WithCommands(gs, i, cs[j := c]);
    IdBagWithCommands(gs, i, cs[j := c]);
    IdsReplace(cs, j, c);
    forall x ensures IdBag(r)[x] == IdBag(gs)[x] {
    }
  }

  lemma IdsReplace(cs: seq<Command>, j: nat, c: Command)
    requires j < |cs| && c.id == cs[j].id
    ensures Ids(cs[j := c]) == Ids(cs)
  {
    IdsRemoveAt(cs, j);
    IdsRemoveAt(cs[j := c], j);
    assert RemoveAt(cs[j := c], j) == RemoveAt(cs, j);
    forall x ensures Ids(cs[j := c])[x] == Ids(cs)[x] {
    }
  }

  /** Adding an empty group or removing a group keeps the invariant. */
  lemma GroupChangesKeepIds(gs: seq<Group>, nextID: int, name: string, i: nat)
    requires ValidIds(gs, nextID)
    ensures ValidIds(gs + [Group(name, [])], nextID)
    ensures i < |gs| ==> ValidIds(RemoveAt(gs, i), nextID)
  {
    assert AllOf(gs + [Group(name, [])]) == AllOf(gs) + [] by {
      assert (gs + [Group(name, [])])[..|gs|] == gs;
    }
    assert AllOf(gs) + [] == AllOf(gs);
    if i < |gs| {
      var r := RemoveAt(gs, i);
      assert gs == gs[..i] + [gs[i]] + gs[i + 1..];
      AllOfAppend(gs[..i] + [gs[i]], gs[i + 1..]);
      AllOfAppend(gs[..i], [gs[i]]);
      AllOfAppend(gs[..i], gs[i + 1..]);
      IdsAppend(AllOf(gs[..i]) + AllOf([gs[i]]), AllOf(gs[i + 1..]));
      IdsAppend(AllOf(gs[..i]), AllOf([gs[i]]));
      IdsAppend(AllOf(gs[..i]), AllOf(gs[i + 1..]));
      assert forall x :: IdBag(r)[x] <= IdBag(gs)[x];
    }
  }

  // ---------------------------------------------------------------------
  // migrateIDs

  /** The largest ID, or 0 when there is none larger (`maxID`). */
  function MaxId(cs: seq<Command>): (r: int)
    ensures r >= 0
  {
    if cs == [] then 0
    else
      var m := MaxId(cs[..|cs| - 1]);
      if cs[|cs| - 1].id > m then cs[|cs| - 1].id else m
  }

  /** `MaxId` is 0 or an ID, and no ID is above it. */
  lemma {:induction false} MaxIdBounds(cs: seq<Command>)
    ensures MaxId(cs) >= 0
    ensures forall k :: 0 <= k < |cs| ==> cs[k].id <= MaxId(cs)
    ensures MaxId(cs) == 0 || (exists k :: 0 <= k < |cs| && cs[k].id == MaxId(cs))
  {
    if cs != [] {
      var init := cs[..|cs| - 1];
      MaxIdBounds(init);
      assert forall k :: 0 <= k < |init| ==> cs[k] == init[k];
      if MaxId(cs) != 0 && MaxId(cs) == MaxId(init) {
        var k :| 0 <= k < |init| && init[k].id == MaxId(init);
        assert cs[k].id == MaxId(cs);
      }
    }
  }

  /** The counter value the numbering starts from: `NextID`, raised to
      `maxID + 1` when it is not above every ID. */
  function MigrateStart(gs: seq<Group>, nextID: int): int
  {
    if nextID <= MaxId(AllOf(gs)) then MaxId(AllOf(gs)) + 1 else nextID
  }

  /** How many commands lack an ID (carry 0). */
  function Zeros(cs: seq<Command>): nat
  {
    if cs == [] then 0 else Zeros(cs[..|cs| - 1]) + (if cs[|cs| - 1].id == 0 then 1 else 0)
  }

  /** The commands with every 0 ID replaced, in order, by `next`, `next + 1`, ... */
  function AssignCmds(cs: seq<Command>, next: int): (r: seq<Command>)
    ensures |r| == |cs|
  {
    if cs == [] then []
    else
      var c := cs[|cs| - 1];
      AssignCmds(cs[..|cs| - 1], next)
      + [if c.id == 0 then c.(id := next + Zeros(cs[..|cs| - 1])) else c]
  }

  /** The same numbering carried through every group in order. */
  function AssignGroups(gs: seq<Group>, next: int): (r: seq<Group>)
    ensures |r| == |gs|
  {
    if gs == [] then []
    else
      var g := gs[|gs| - 1];
      AssignGroups(gs[..|gs| - 1], next)
      + [Group(g.name, AssignCmds(g.commands, next + Zeros(AllOf(gs[..|gs| - 1]))))]
  }

  lemma {:induction false} ZerosAppend(a: seq<Command>, b: seq<Command>)
    ensures Zeros(a + b) == Zeros(a) + Zeros(b)
  {
    if b != [] {
      assert (a + b)[..|a + b| - 1] == a + b[..|b| - 1];
      ZerosAppend(a, b[..|b| - 1]);
    } else {
      assert a + b == a;
    }
  }

  lemma {:induction false} AssignCmdsAppend(a: seq<Command>, b: seq<Command>, next: int)
    ensures AssignCmds(a + b, next) == AssignCmds(a, next) + AssignCmds(b, next + Zeros(a))
  {
    if b != [] {
      var b0 := b[..|b| - 1];
      assert (a + b)[..|a + b| - 1] == a + b0;
      AssignCmdsAppend(a, b0, next);
      ZerosAppend(a, b0);
    } else {
      assert a + b == a;
    }
  }

  /** Numbering the groups one by one is numbering the list of all their
      commands. */
  lemma {:induction false} AssignGroupsFlat(gs: seq<Group>, next: int)
    ensures AllOf(AssignGroups(gs, next)) == AssignCmds(AllOf(gs), next)
  {
    if gs != [] {
      var init := gs[..|gs| - 1];
      var g := gs[|gs| - 1];
      var h := Group(g.name, AssignCmds(g.commands, next + Zeros(AllOf(init))));
      assert AssignGroups(gs, next) == AssignGroups(init, next) + [h];
      assert AllOf(gs) == AllOf(init) + g.commands;
      AssignGroupsFlat(init, next);
      AssignCmdsAppend(AllOf(init), g.commands, next);
      AllOfSnoc(AssignGroups(init, next), h);
    }
  }

  /** Numbering keeps every group's name and size. */
  lemma {:induction false} AssignGroupsShape(gs: seq<Group>, next: int)
    ensures forall i :: 0 <= i < |gs| ==>
      AssignGroups(gs, next)[i].name == gs[i].name
      && |AssignGroups(gs, next)[i].commands| == |gs[i].commands|
  {
    if gs != [] {
      var init := gs[..|gs| - 1];
      var g := gs[|gs| - 1];
      AssignGroupsShape(init, next);
      var a := AssignGroups(init, next);
      var h := Group(g.name, AssignCmds(g.commands, next + Zeros(AllOf(init))));
      assert AssignGroups(gs, next) == a + [h];
      forall i | 0 <= i < |gs|
        ensures AssignGroups(gs, next)[i].name == gs[i].name
        ensures |AssignGroups(gs, next)[i].commands| == |gs[i].commands|
      {
        if i < |init| {
          assert (a + [h])[i] == a[i] && gs[i] == init[i];
        }
      }
    }
  }

  /** The k-th command after numbering. */
  lemma {:induction false} AssignCmdsAt(cs: seq<Command>, next: int)
    ensures forall k :: 0 <= k < |cs| ==>
      AssignCmds(cs, next)[k] == (if cs[k].id == 0 then cs[k].(id := next + Zeros(cs[..k])) else cs[k])
  {
    if cs != [] {
      var init := cs[..|cs| - 1];
      AssignCmdsAt(init, next);
      forall k | 0 <= k < |init| ensures init[..k] == cs[..k] && init[k] == cs[k] {
      }
    }
  }

  lemma {:induction false} ZerosPrefix(cs: seq<Command>, a: nat, b: nat)
    requires a <= b <= |cs|
    ensures Zeros(cs[..a]) <= Zeros(cs[..b])
    ensures a < b && cs[a].id == 0 ==> Zeros(cs[..a]) < Zeros(cs[..b])
    decreases b - a
  {
    if a < b {
      ZerosPrefix(cs, a + 1, b);
      assert cs[..a + 1][..a] == cs[..a];
    }
  }

  /** What `migrateIDs` establishes on the list of all commands (which
      `AssignGroupsFlat` ties to the groups), with `start` the raised counter
      and `start + Zeros(cs)` the final one: no command is left with ID 0,
      every ID is below the final counter, existing IDs are kept, and the new
      IDs are pairwise distinct and above every earlier ID. */
  lemma MigrateMeaning(cs: seq<Command>, start: int)
    requires start >= 1 && start > MaxId(cs)
    ensures forall k :: 0 <= k < |cs| ==>
      && AssignCmds(cs, start)[k].id != 0
      && AssignCmds(cs, start)[k].id < start + Zeros(cs)
      && AssignCmds(cs, start)[k] == cs[k].(id := AssignCmds(cs, start)[k].id)
    ensures forall k :: 0 <= k < |cs| && cs[k].id != 0 ==> AssignCmds(cs, start)[k] == cs[k]
    ensures forall k :: 0 <= k < |cs| && cs[k].id == 0 ==> AssignCmds(cs, start)[k].id > MaxId(cs)
    ensures forall k1, k2 :: 0 <= k1 < k2 < |cs| && cs[k1].id == 0 && cs[k2].id == 0 ==>
      AssignCmds(cs, start)[k1].id < AssignCmds(cs, start)[k2].id
  {
    AssignCmdsAt(cs, start);
    forall k | 0 <= k < |cs| ensures Zeros(cs[..k]) <= Zeros(cs) && (cs[k].id == 0 ==> Zeros(cs[..k]) < Zeros(cs)) {
      ZerosPrefix(cs, k, |cs|);
      assert cs[..|cs|] == cs;
    }
    forall k1, k2 | 0 <= k1 < k2 < |cs| && cs[k1].id == 0
      ensures Zeros(cs[..k1]) < Zeros(cs[..k2])
    {
      ZerosPrefix(cs, k1, k2);
    }
  }

  /** The IDs other than 0 (the "no ID yet" mark) are pairwise distinct. */
  predicate NonZeroIdsDistinct(gs: seq<Group>)
  {
    forall x :: x in IdBag(gs) && x != 0 ==> IdBag(gs)[x] == 1
  }

  /** IDs that differ position by position occur once each. */
  lemma {:induction false} IdsOnceEach(cs: seq<Command>)
    requires forall k1, k2 :: 0 <= k1 < k2 < |cs| ==> cs[k1].id != cs[k2].id
    ensures forall x :: Ids(cs)[x] <= 1
  {
    if cs != [] {
      var init := cs[..|cs| - 1];
      IdsOnceEach(init);
      IdsMember(init);
      assert cs[|cs| - 1].id !in Ids(init);
    }
  }

  /** The numbering on the list of all commands: every ID set and below
      the final counter. */
  lemma MigrateFlatBelow(cs: seq<Command>, start: int)
    requires start >= 1 && start > MaxId(cs)
    ensures forall x :: x in Ids(AssignCmds(cs, start)) ==> x != 0 && x < start + Zeros(cs)
  {
    MigrateMeaning(cs, start);
    IdsMember(AssignCmds(cs, start));
  }

  /** The numbering keeps IDs apart when the IDs already given were apart. */
  lemma MigrateFlatDistinct(cs: seq<Command>, start: int)
    requires start >= 1 && start > MaxId(cs)
    requires forall x :: x in Ids(cs) && x != 0 ==> Ids(cs)[x] == 1
    ensures forall x :: Ids(AssignCmds(cs, start))[x] <= 1
  {
    var r := AssignCmds(cs, start);
    MigrateMeaning(cs, start);
    MaxIdBounds(cs);
    forall k1, k2 | 0 <= k1 < k2 < |r| ensures r[k1].id != r[k2].id {
      if cs[k1].id != 0 && cs[k2].id != 0 && cs[k1].id == cs[k2].id {
        IdsTwice(cs, k1, k2);
        IdsMember(cs);
        assert false;
      }
    }
    IdsOnceEach(r);
  }

  /** What `migrateIDs` leaves in the store: no command without an ID,
      every ID below the new counter, and the IDs distinct whenever the
      IDs already given were. */
  lemma MigrateKeepsIdsValid(gs: seq<Group>, nextID: int)
    ensures var start := MigrateStart(gs, nextID);
            var hs := AssignGroups(gs, start);
            && 0 !in IdBag(hs)
            && IdsBelow(hs, start + Zeros(AllOf(gs)))
            && (NonZeroIdsDistinct(gs) ==> ValidIds(hs, start + Zeros(AllOf(gs))))
  {
    var start := MigrateStart(gs, nextID);
    var hs := AssignGroups(gs, start);
    var bag := Ids(AssignCmds(AllOf(gs), start));
    AssignGroupsFlat(gs, start);
    assert IdBag(hs) == bag;
    MigrateStartAbove(gs, nextID);
    MigrateFlatBelow(AllOf(gs), start);
    assert IdsBelow(hs, start + Zeros(AllOf(gs)));
    if NonZeroIdsDistinct(gs) {
      MigrateFlatDistinct(AllOf(gs), start);
      assert IdsDistinct(hs);
    }
  }

  lemma MigrateStartAbove(gs: seq<Group>, nextID: int)
    ensures MigrateStart(gs, nextID) >= 1 && MigrateStart(gs, nextID) > MaxId(AllOf(gs))
    ensures MigrateStart(gs, nextID) >= nextID
  {
    MaxIdBounds(AllOf(gs));
  }

  // ---------------------------------------------------------------------
  // The selection rule of pruneBackups

  predicate LessEq(a: string, b: string)
  {
    a == b || Less(a, b)
  }

  predicate SortedNames(s: seq<string>)
  {
    forall i, j :: 0 <= i < j < |s| ==> LessEq(s[i], s[j])
  }

  function InsertName(s: seq<string>, x: string): (r: seq<string>)
    requires SortedNames(s)
    ensures SortedNames(r)
    ensures |r| == |s| + 1
    ensures multiset(r) == multiset(s) + multiset{x}
  {
    if s == [] then [x]
    else if LessEq(x, s[0]) then
      assert forall k :: 0 < k < |s| ==> LessEq(x, s[k]) by {
        forall k | 0 < k < |s| ensures LessEq(x, s[k]) {
          if x != s[0] && s[0] != s[k] { LessTransitive(x, s[0], s[k]); }
        }
      }
      [x] + s
    else
      LessTotal(x, s[0]);
      var rest := InsertName(s[1..], x);
      assert forall k :: 0 <= k < |rest| ==> LessEq(s[0], rest[k]) by {
        forall k | 0 <= k < |rest| ensures LessEq(s[0], rest[k]) {
          assert rest[k] in multiset(rest);
          if rest[k] != x {
            assert rest[k] in multiset(s[1..]);
            var j :| 0 <= j < |s[1..]| && s[1..][j] == rest[k];
            assert s[j + 1] == rest[k];
          }
        }
      }
      assert s == [s[0]] + s[1..];
      [s[0]] + rest
  }

  /** `sort.Strings`. */
  function SortNames(s: seq<string>): (r: seq<string>)
    ensures SortedNames(r)
    ensures |r| == |s|
    ensures multiset(r) == multiset(s)
  {
    if s == [] then []
    else
      assert s == s[..|s| - 1] + [s[|s| - 1]];
      InsertName(SortNames(s[..|s| - 1]), s[|s| - 1])
  }

  /** The backups `pruneBackups` removes: nothing up to `MaxBackups`
      matches, else the oldest (smallest) names beyond the newest 20. */
  function BackupsToDelete(matches: seq<string>): seq<string>
  {
    if |matches| <= MaxBackups then []
    else SortNames(matches)[..|matches| - MaxBackups]
  }

  /** The backups that stay. */
  function BackupsKept(matches: seq<string>): seq<string>
  {
    if |matches| <= MaxBackups then matches
    else SortNames(matches)[|matches| - MaxBackups..]
  }

  /** Pruning deletes exactly the surplus over 20, keeps the rest, and
      never deletes a name that sorts after one it keeps. */
  lemma PruneKeepsNewest(matches: seq<string>)
    ensures |BackupsToDelete(matches)| == if |matches| > MaxBackups then |matches| - MaxBackups else 0
    ensures |BackupsKept(matches)| == if |matches| > MaxBackups then MaxBackups else |matches|
    ensures multiset(BackupsToDelete(matches)) + multiset(BackupsKept(matches)) == multiset(matches)
    ensures forall i, j :: 0 <= i < |BackupsToDelete(matches)| && 0 <= j < |BackupsKept(matches)| ==>
      LessEq(BackupsToDelete(matches)[i], BackupsKept(matches)[j])
  {
    if |matches| > MaxBackups {
      var s := SortNames(matches);
      var n := |matches| - MaxBackups;
      assert s == s[..n] + s[n..];
      forall i, j | 0 <= i < |s[..n]| && 0 <= j < |s[n..]|
        ensures LessEq(s[..n][i], s[n..][j])
      {
        assert s[..n][i] == s[i] && s[n..][j] == s[n + j];
      }
    }
  }

  // ---------------------------------------------------------------------
  // Step lemmas for the loops below

  lemma MaxIdSnoc(cs: seq<Command>, c: Command)
    ensures MaxId(cs + [c]) == if c.id > MaxId(cs) then c.id else MaxId(cs)
  {
    assert (cs + [c])[..|cs|] == cs;
  }

  lemma AssignCmdsSnoc(cs: seq<Command>, j: nat, next: int)
    requires j < |cs|
    ensures AssignCmds(cs[..j + 1], next)
      == AssignCmds(cs[..j], next) + [if cs[j].id == 0 then cs[j].(id := next + Zeros(cs[..j])) else cs[j]]
    ensures Zeros(cs[..j + 1]) == Zeros(cs[..j]) + (if cs[j].id == 0 then 1 else 0)
  {
    assert cs[..j + 1][..j] == cs[..j];
  }

  lemma AssignGroupsSnoc(gs: seq<Group>, i: nat, next: int)
    requires i < |gs|
    ensures AssignGroups(gs[..i + 1], next)
      == AssignGroups(gs[..i], next) + [Group(gs[i].name, AssignCmds(gs[i].commands, next + Zeros(AllOf(gs[..i]))))]
    ensures Zeros(AllOf(gs[..i + 1])) == Zeros(AllOf(gs[..i])) + Zeros(gs[i].commands)
    ensures AllOf(gs[..i + 1]) == AllOf(gs[..i]) + gs[i].commands
  {
    assert gs[..i + 1][..i] == gs[..i];
    ZerosAppend(AllOf(gs[..i]), gs[i].commands);
  }

  /** One group of the numbering pass, over the groups so far numbered
      followed by the rest as they were. */
  lemma NumberGroupStep(gs: seq<Group>, i: nat, start: int, before: seq<Group>, cs: seq<Command>)
    requires i < |gs|
    requires before == AssignGroups(gs[..i], start) + gs[i..]
    requires cs == AssignCmds(gs[i].commands, start + Zeros(AllOf(gs[..i])))
    ensures before[i := Group(before[i].name, cs)] == AssignGroups(gs[..i + 1], start) + gs[i + 1..]
    ensures Zeros(AllOf(gs[..i + 1])) == Zeros(AllOf(gs[..i])) + Zeros(gs[i].commands)
  {
    AssignGroupsSnoc(gs, i, start);
    var a := AssignGroups(gs[..i], start);
    assert gs[i..] == [gs[i]] + gs[i + 1..];
    assert before[i] == gs[i];
    UpdateAtJoin(a, gs[i], Group(gs[i].name, cs), gs[i + 1..]);
  }

  /** Replacing the element that follows `a` in `a + [x] + rest`. */
  lemma UpdateAtJoin<T>(a: seq<T>, x: T, y: T, rest: seq<T>)
    ensures (a + [x] + rest)[|a| := y] == a + [y] + rest
  {
    var lhs := (a + [x] + rest)[|a| := y];
    assert forall k :: 0 <= k < |lhs| ==> lhs[k] == (a + [y] + rest)[k];
  }

  lemma NumberGroupAt(gs: seq<Group>, i: nat, start: int, before: seq<Group>)
    requires i < |gs|
    requires before == AssignGroups(gs[..i], start) + gs[i..]
    ensures i < |before| && before[i] == gs[i]
  {
  }

  lemma FlattenSnoc(gs: seq<Group>, i: nat)
    requires i < |gs|
    ensures Flatten(gs[..i + 1]) == Flatten(gs[..i]) + FlattenGroup(gs[i])
  {
    assert gs[..i + 1][..i] == gs[..i];
  }

  // ---------------------------------------------------------------------
  // Searches shared by the operations

  /** The loop `for i, g := range c.Groups { if g.Name == name ... }`. */
  method FindGroup(gs: seq<Group>, name: string) returns (i: int)
    ensures i == GroupIndex(gs, name)
  {
    i := 0;
    while i < |gs| && gs[i].name != name
      invariant 0 <= i <= |gs|
      invariant forall k :: 0 <= k < i ==> gs[k].name != name
    {
      i := i + 1;
    }
    if i == |gs| {
      i := -1;
    }
  }

  /** The loop `for j, cmd := range g.Commands { if cmd.Name == key || strconv.Itoa(cmd.ID) == key ... }`. */
  method FindCommand(cs: seq<Command>, key: string) returns (j: int)
    ensures j == CommandIndex(cs, key)
  {
    j := 0;
    while j < |cs| && !Matches(cs[j], key)
      invariant 0 <= j <= |cs|
      invariant forall k :: 0 <= k < j ==> !Matches(cs[k], key)
    {
      j := j + 1;
    }
    if j == |cs| {
      j := -1;
    }
  }

  /** The nested loop over every group and command looking for an ID. */
  method FindId(gs: seq<Group>, id: int) returns (i: int, j: int)
    ensures i == IdGroup(gs, id)
    ensures i >= 0 ==> j == IdIndex(gs[i].commands, id)
  {
    i := 0;
    while i < |gs|
      invariant 0 <= i <= |gs|
      invariant forall m :: 0 <= m < i ==> IdIndex(gs[m].commands, id) == -1
    {
      var cs := gs[i].commands;
      j := 0;
      while j < |cs|
        invariant 0 <= j <= |cs|
        invariant forall m :: 0 <= m < j ==> cs[m].id != id
      {
        if cs[j].id == id {
          return;
        }
        j := j + 1;
      }
      i := i + 1;
    }
    i, j := -1, -1;
  }

  function Max(a: int, b: int): int
  {
    if a > b then a else b
  }

  lemma MaxIdStep(gs: seq<Group>, i: nat)
    requires i < |gs|
    ensures MaxId(AllOf(gs[..i + 1])) == Max(MaxId(AllOf(gs[..i])), MaxId(gs[i].commands))
  {
    AssignGroupsSnoc(gs, i, 0);
    MaxIdAppend(AllOf(gs[..i]), gs[i].commands);
  }

  lemma {:induction false} MaxIdAppend(a: seq<Command>, b: seq<Command>)
    ensures MaxId(a + b) == Max(MaxId(a), MaxId(b))
  {
    if b != [] {
      assert (a + b)[..|a + b| - 1] == a + b[..|b| - 1];
      MaxIdAppend(a, b[..|b| - 1]);
    } else {
      assert a + b == a;
    }
  }

  /** The first nested loop of `migrateIDs`: the largest ID, or 0. */
  method MaxIdOf(gs: seq<Group>) returns (maxID: int)
    ensures maxID == MaxId(AllOf(gs))
  {
    maxID := 0;
    var i := 0;
    while i < |gs|
      invariant 0 <= i <= |gs|
      invariant maxID == MaxId(AllOf(gs[..i]))
    {
      var cs := gs[i].commands;
      ghost var before := maxID;
      var j := 0;
      while j < |cs|
        invariant 0 <= j <= |cs|
        invariant maxID == Max(before, MaxId(cs[..j]))
      {
        MaxIdSnoc(cs[..j], cs[j]);
        assert cs[..j + 1] == cs[..j] + [cs[j]];
        if cs[j].id > maxID {
          maxID := cs[j].id;
        }
        j := j + 1;
      }
      assert cs[..j] == cs;
      MaxIdStep(gs, i);
      i := i + 1;
    }
    assert gs[..i] == gs;
  }

  /** The inner loop of the numbering pass of `migrateIDs` over one group. */
  method NumberCommands(cs0: seq<Command>, next0: int) returns (cs: seq<Command>, next: int)
    ensures cs == AssignCmds(cs0, next0)
    ensures next == next0 + Zeros(cs0)
  {
    cs, next := cs0, next0;
    var j := 0;
    while j < |cs|
      invariant |cs| == |cs0|
      invariant 0 <= j <= |cs0|
      invariant cs[..j] == AssignCmds(cs0[..j], next0)
      invariant cs[j..] == cs0[j..]
      invariant next == next0 + Zeros(cs0[..j])
    {
      AssignCmdsSnoc(cs0, j, next0);
      assert cs[j] == cs0[j];
      if cs[j].id == 0 {
        cs := cs[j := cs[j].(id := next)];
        next := next + 1;
      }
      assert cs[..j + 1] == cs[..j] + [cs[j]];
      j := j + 1;
    }
    assert cs[..j] == cs;
    assert cs0[..j] == cs0;
  }

  /** The numbering pass of `migrateIDs`: the nested loop that gives each
      command with ID 0 the counter's value and bumps the counter. */
  method NumberGroups(gs: seq<Group>, start: int) returns (hs: seq<Group>, next: int)
    ensures hs == AssignGroups(gs, start)
    ensures next == start + Zeros(AllOf(gs))
  {
    hs, next := gs, start;
    var i := 0;
    assert gs[..0] == [] && gs[0..] == gs;
    while i < |hs|
      invariant 0 <= i <= |gs|
      invariant hs == AssignGroups(gs[..i], start) + gs[i..]
      invariant next == start + Zeros(AllOf(gs[..i]))
    {
      NumberGroupAt(gs, i, start, hs);
      var cs, next' := NumberCommands(hs[i].commands, next);
      NumberGroupStep(gs, i, start, hs, cs);
      hs := hs[i := Group(hs[i].name, cs)];
      next := next';
      i := i + 1;
    }
    assert gs[..i] == gs;
  }

  /** `cs` has a command named `name`: the duplicate check of `AddCommandWithAction`. */
  method HasName(cs: seq<Command>, name: string) returns (taken: bool)
    ensures taken == NameTaken(cs, name, -1)
  {
    var k := 0;
    while k < |cs|
      invariant 0 <= k <= |cs|
      invariant forall m :: 0 <= m < k ==> cs[m].name != name
    {
      if cs[k].name == name {
        return true;
      }
      k := k + 1;
    }
    return false;
  }

  /** A command other than the one at `j` is named `name`: the conflict check of `UpdateCommandWithAction`. */
  method NameConflict(cs: seq<Command>, name: string, j: int) returns (taken: bool)
    ensures taken == NameTaken(cs, name, j)
  {
    var k := 0;
    while k < |cs|
      invariant 0 <= k <= |cs|
      invariant forall m :: 0 <= m < k && m != j ==> cs[m].name != name
    {
      if k != j && cs[k].name == name {
        return true;
      }
      k := k + 1;
    }
    return false;
  }

  /** The edited command: new name, text and description; a new default
      action only when one is given. */
  function Edited(c: Command, newName: string, newCommand: string, newDescription: string, newAction: string): Command
  {
    Command(c.id, newName, newCommand, newDescription, if newAction != "" then newAction else c.defaultAction)
  }

  // ---------------------------------------------------------------------
  // The store

  class Config {
    var groups: seq<Group>
    var nextID: int

    constructor (groups0: seq<Group>, nextID0: int)
      ensures groups == groups0 && nextID == nextID0
    {
      groups := groups0;
      nextID := nextID0;
    }

    /** The configuration `LoadFrom` returns when there is no file. */
    constructor Empty()
      ensures groups == [] && nextID == 1
      ensures ValidIds(groups, nextID)
    {
      groups := [];
      nextID := 1;
    }

    method AddGroup(name: string) returns (err: Option<ConfigError>)
      modifies this
      ensures GroupIndex(old(groups), name) >= 0 ==> err == Some(GroupExists(name)) && groups == old(groups)
      ensures GroupIndex(old(groups), name) < 0 ==> err == None && groups == old(groups) + [Group(name, [])]
      ensures nextID == old(nextID)
      ensures ValidIds(old(groups), old(nextID)) ==> ValidIds(groups, nextID)
    {
      var i := FindGroup(groups, name);
      if i >= 0 {
        return Some(GroupExists(name));
      }
      ghost var before := groups;
      groups := groups + [Group(name, [])];
      if ValidIds(before, nextID) {
        GroupChangesKeepIds(before, nextID, name, 0);
      }
      return None;
    }

    method AddCommand(groupName: string, cmdName: string, command: string, description: string)
      returns (err: Option<ConfigError>)
      modifies this
      ensures GroupIndex(old(groups), groupName) < 0 ==>
        err == Some(GroupNotFound(groupName)) && groups == old(groups) && nextID == old(nextID)
      ensures (GroupIndex(old(groups), groupName) >= 0
        && NameTaken(old(groups)[GroupIndex(old(groups), groupName)].commands, cmdName, -1)) ==>
        err == Some(CommandExists(cmdName, groupName)) && groups == old(groups) && nextID == old(nextID)
      ensures (GroupIndex(old(groups), groupName) >= 0
        && !NameTaken(old(groups)[GroupIndex(old(groups), groupName)].commands, cmdName, -1)) ==>
        && err == None
        && groups == WithCommands(old(groups), GroupIndex(old(groups), groupName),
             old(groups)[GroupIndex(old(groups), groupName)].commands
             + [Command(old(nextID), cmdName, command, description, ActionNone)])
        && nextID == old(nextID) + 1
      ensures ValidIds(old(groups), old(nextID)) ==> ValidIds(groups, nextID)
    {
      err := AddCommandWithAction(groupName, cmdName, command, description, ActionNone);
    }

    method AddCommandWithAction(groupName: string, cmdName: string, command: string, description: string,
                                action: string) returns (err: Option<ConfigError>)
      modifies this
      ensures GroupIndex(old(groups), groupName) < 0 ==>
        err == Some(GroupNotFound(groupName)) && groups == old(groups) && nextID == old(nextID)
      ensures (GroupIndex(old(groups), groupName) >= 0
        && NameTaken(old(groups)[GroupIndex(old(groups), groupName)].commands, cmdName, -1)) ==>
        err == Some(CommandExists(cmdName, groupName)) && groups == old(groups) && nextID == old(nextID)
      ensures (GroupIndex(old(groups), groupName) >= 0
        && !NameTaken(old(groups)[GroupIndex(old(groups), groupName)].commands, cmdName, -1)) ==>
        && err == None
        && groups == WithCommands(old(groups), GroupIndex(old(groups), groupName),
             old(groups)[GroupIndex(old(groups), groupName)].commands
             + [Command(old(nextID), cmdName, command, description, action)])
        && nextID == old(nextID) + 1
      ensures ValidIds(old(groups), old(nextID)) ==> ValidIds(groups, nextID)
    {
      var i := FindGroup(groups, groupName);
      if i < 0 {
        return Some(GroupNotFound(groupName));
      }
      var taken := HasName(groups[i].commands, cmdName);
      if taken {
        return Some(CommandExists(cmdName, groupName));
      }
      var c := Command(nextID, cmdName, command, description, action);
      ghost var before, next0 := groups, nextID;
      groups := WithCommands(groups, i, groups[i].commands + [c]);
      nextID := nextID + 1;
      if ValidIds(before, next0) {
        AddCommandKeepsIds(before, next0, i, c);
      }
      return None;
    }

    method RemoveGroup(name: string) returns (err: Option<ConfigError>)
      modifies this
      ensures GroupIndex(old(groups), name) < 0 ==> err == Some(GroupNotFound(name)) && groups == old(groups)
      ensures GroupIndex(old(groups), name) >= 0 ==>
        err == None && groups == RemoveAt(old(groups), GroupIndex(old(groups), name))
      ensures nextID == old(nextID)
      ensures ValidIds(old(groups), old(nextID)) ==> ValidIds(groups, nextID)
    {
      var i := FindGroup(groups, name);
      if i < 0 {
        return Some(GroupNotFound(name));
      }
      ghost var before := groups;
      groups := RemoveAt(groups, i);
      if ValidIds(before, nextID) {
        GroupChangesKeepIds(before, nextID, name, i);
      }
      return None;
    }

    method RemoveCommand(groupName: string, key: string) returns (err: Option<ConfigError>)
      modifies this
      ensures GroupIndex(old(groups), groupName) < 0 ==>
        err == Some(GroupNotFound(groupName)) && groups == old(groups)
      ensures (GroupIndex(old(groups), groupName) >= 0
        && CommandIndex(old(groups)[GroupIndex(old(groups), groupName)].commands, key) < 0) ==>
        err == Some(CommandNotFound(key, groupName)) && groups == old(groups)
      ensures (GroupIndex(old(groups), groupName) >= 0
        && CommandIndex(old(groups)[GroupIndex(old(groups), groupName)].commands, key) >= 0) ==>
        && err == None
        && groups == WithCommands(old(groups), GroupIndex(old(groups), groupName),
             RemoveAt(old(groups)[GroupIndex(old(groups), groupName)].commands,
                      CommandIndex(old(groups)[GroupIndex(old(groups), groupName)].commands, key)))
      ensures nextID == old(nextID)
      ensures ValidIds(old(groups), old(nextID)) ==> ValidIds(groups, nextID)
    {
      var i := FindGroup(groups, groupName);
      if i < 0 {
        return Some(GroupNotFound(groupName));
      }
      var j := FindCommand(groups[i].commands, key);
      if j < 0 {
        return Some(CommandNotFound(key, groupName));
      }
      ghost var before := groups;
      groups := WithCommands(groups, i, RemoveAt(groups[i].commands, j));
      if ValidIds(before, nextID) {
        RemoveCommandKeepsIds(before, nextID, i, j);
      }
      return None;
    }

    method RemoveCommandByID(id: int) returns (err: Option<ConfigError>)
      modifies this
      ensures IdGroup(old(groups), id) < 0 ==> err == Some(IdNotFound(id)) && groups == old(groups)
      ensures IdGroup(old(groups), id) >= 0 ==>
        && err == None
        && groups == WithCommands(old(groups), IdGroup(old(groups), id),
             RemoveAt(old(groups)[IdGroup(old(groups), id)].commands,
                      IdIndex(old(groups)[IdGroup(old(groups), id)].commands, id)))
      ensures nextID == old(nextID)
      ensures ValidIds(old(groups), old(nextID)) ==> ValidIds(groups, nextID)
    {
      var i, j := FindId(groups, id);
      if i < 0 {
        return Some(IdNotFound(id));
      }
      ghost var before := groups;
      groups := WithCommands(groups, i, RemoveAt(groups[i].commands, j));
      if ValidIds(before, nextID) {
        RemoveCommandKeepsIds(before, nextID, i, j);
      }
      return None;
    }

    /** `GetGroup`; the Go result is a pointer into `Groups`, here a copy. */
    method GetGroup(name: string) returns (g: Option<Group>)
      ensures GroupIndex(groups, name) < 0 ==> g == None
      ensures GroupIndex(groups, name) >= 0 ==> g == Some(groups[GroupIndex(groups, name)])
    {
      var i := FindGroup(groups, name);
      if i < 0 {
        return None;
      }
      return Some(groups[i]);
    }

    method GetCommandByID(id: int) returns (cmd: Option<Command>, groupName: string)
      ensures IdGroup(groups, id) < 0 ==> cmd == None && groupName == ""
      ensures IdGroup(groups, id) >= 0 ==>
        && cmd == Some(groups[IdGroup(groups, id)].commands[IdIndex(groups[IdGroup(groups, id)].commands, id)])
        && groupName == groups[IdGroup(groups, id)].name
    {
      var i, j := FindId(groups, id);
      if i < 0 {
        return None, "";
      }
      return Some(groups[i].commands[j]), groups[i].name;
    }

    method GetCommand(groupName: string, key: string) returns (r: Result<Command, ConfigError>)
      ensures GroupIndex(groups, groupName) < 0 ==> r == Err(GroupNotFound(groupName))
      ensures (GroupIndex(groups, groupName) >= 0
        && CommandIndex(groups[GroupIndex(groups, groupName)].commands, key) < 0) ==>
        r == Err(CommandNotFound(key, groupName))
      ensures (GroupIndex(groups, groupName) >= 0
        && CommandIndex(groups[GroupIndex(groups, groupName)].commands, key) >= 0) ==>
        r == Ok(groups[GroupIndex(groups, groupName)].commands[CommandIndex(groups[GroupIndex(groups, groupName)].commands, key)])
    {
      var g := GetGroup(groupName);
      if g.None? {
        return Err(GroupNotFound(groupName));
      }
      var j := FindCommand(g.value.commands, key);
      if j < 0 {
        return Err(CommandNotFound(key, groupName));
      }
      return Ok(g.value.commands[j]);
    }

    method UpdateCommand(groupName: string, key: string, newName: string, newCommand: string,
                         newDescription: string) returns (err: Option<ConfigError>)
      modifies this
      ensures GroupIndex(old(groups), groupName) < 0 ==>
        err == Some(GroupNotFound(groupName)) && groups == old(groups)
      ensures (GroupIndex(old(groups), groupName) >= 0
        && CommandIndex(old(groups)[GroupIndex(old(groups), groupName)].commands, key) < 0) ==>
        err == Some(CommandNotFound(key, groupName)) && groups == old(groups)
      ensures (GroupIndex(old(groups), groupName) >= 0
        && CommandIndex(old(groups)[GroupIndex(old(groups), groupName)].commands, key) >= 0) ==>
        UpdateOutcome(old(groups), GroupIndex(old(groups), groupName),
          CommandIndex(old(groups)[GroupIndex(old(groups), groupName)].commands, key),
          newName, newCommand, newDescription, "", groups, err)
      ensures nextID == old(nextID)
      ensures ValidIds(old(groups), old(nextID)) ==> ValidIds(groups, nextID)
    {
      err := UpdateCommandWithAction(groupName, key, newName, newCommand, newDescription, "");
    }

    method UpdateCommandWithAction(groupName: string, key: string, newName: string, newCommand: string,
                                   newDescription: string, newAction: string) returns (err: Option<ConfigError>)
      modifies this
      ensures GroupIndex(old(groups), groupName) < 0 ==>
        err == Some(GroupNotFound(groupName)) && groups == old(groups)
      ensures (GroupIndex(old(groups), groupName) >= 0
        && CommandIndex(old(groups)[GroupIndex(old(groups), groupName)].commands, key) < 0) ==>
        err == Some(CommandNotFound(key, groupName)) && groups == old(groups)
      ensures (GroupIndex(old(groups), groupName) >= 0
        && CommandIndex(old(groups)[GroupIndex(old(groups), groupName)].commands, key) >= 0) ==>
        UpdateOutcome(old(groups), GroupIndex(old(groups), groupName),
          CommandIndex(old(groups)[GroupIndex(old(groups), groupName)].commands, key),
          newName, newCommand, newDescription, newAction, groups, err)
      ensures nextID == old(nextID)
      ensures ValidIds(old(groups), old(nextID)) ==> ValidIds(groups, nextID)
    {
      var i := FindGroup(groups, groupName);
      if i < 0 {
        return Some(GroupNotFound(groupName));
      }
      var cs := groups[i].commands;
      var j := FindCommand(cs, key);
      if j < 0 {
        return Some(CommandNotFound(key, groupName));
      }
      if newName != cs[j].name {
        var taken := NameConflict(cs, newName, j);
        if taken {
          return Some(CommandExists(newName, groupName));
        }
      }
      var c := Edited(cs[j], newName, newCommand, newDescription, newAction);
      ReplaceCommandKeepsIds(groups, i, j, c);
      groups := WithCommands(groups, i, cs[j := c]);
      return None;
    }

    method SetCommandAction(id: int, action: string) returns (err: Option<ConfigError>)
      modifies this
      ensures IdGroup(old(groups), id) < 0 ==> err == Some(IdNotFound(id)) && groups == old(groups)
      ensures IdGroup(old(groups), id) >= 0 ==>
        && err == None
        && groups == WithCommands(old(groups), IdGroup(old(groups), id),
             old(groups)[IdGroup(old(groups), id)].commands[IdIndex(old(groups)[IdGroup(old(groups), id)].commands, id)
               := old(groups)[IdGroup(old(groups), id)].commands[IdIndex(old(groups)[IdGroup(old(groups), id)].commands, id)]
                    .(defaultAction := action)])
      ensures nextID == old(nextID)
      ensures IdBag(groups) == IdBag(old(groups))
    {
      var i, j := FindId(groups, id);
      if i < 0 {
        return Some(IdNotFound(id));
      }
      var c := groups[i].commands[j].(defaultAction := action);
      ReplaceCommandKeepsIds(groups, i, j, c);
      groups := WithCommands(groups, i, groups[i].commands[j := c]);
      return None;
    }

    /** An update of the command with ID `id`, wherever it is: the same
        name-clash rule and in-place edit as `UpdateCommand`, but the command
        is found by its ID alone, so no other command's name or ID can stand
        in for it. The interface edits through this. */
    method UpdateCommandByID(id: int, newName: string, newCommand: string, newDescription: string)
      returns (err: Option<ConfigError>)
      modifies this
      ensures IdGroup(old(groups), id) < 0 ==> err == Some(IdNotFound(id)) && groups == old(groups)
      ensures IdGroup(old(groups), id) >= 0 ==>
        UpdateOutcome(old(groups), IdGroup(old(groups), id), IdIndex(old(groups)[IdGroup(old(groups), id)].commands, id),
          newName, newCommand, newDescription, "", groups, err)
      ensures nextID == old(nextID)
      ensures ValidIds(old(groups), old(nextID)) ==> ValidIds(groups, nextID)
    {
      var i, j := FindId(groups, id);
      if i < 0 {
        return Some(IdNotFound(id));
      }
      var cs := groups[i].commands;
      if newName != cs[j].name {
        var taken := NameConflict(cs, newName, j);
        if taken {
          return Some(CommandExists(newName, groups[i].name));
        }
      }
      var c := Edited(cs[j], newName, newCommand, newDescription, "");
      ReplaceCommandKeepsIds(groups, i, j, c);
      groups := WithCommands(groups, i, cs[j := c]);
      return None;
    }

    /** `migrateIDs`: raise the counter above every ID, then number, in
        order, the commands whose ID is 0. */
    method MigrateIds()
      modifies this
      ensures groups == AssignGroups(old(groups), MigrateStart(old(groups), old(nextID)))
      ensures nextID == MigrateStart(old(groups), old(nextID)) + Zeros(AllOf(old(groups)))
      ensures 0 !in IdBag(groups) && IdsBelow(groups, nextID)
      ensures NonZeroIdsDistinct(old(groups)) ==> ValidIds(groups, nextID)
    {
      MigrateKeepsIdsValid(groups, nextID);
      var maxID := MaxIdOf(groups);
      if nextID <= maxID {
        nextID := maxID + 1;
      }
      groups, nextID := NumberGroups(groups, nextID);
    }

    method AllCommands() returns (all: seq<Command>)
      ensures all == AllOf(groups)
    {
      all := [];
      var i := 0;
      while i < |groups|
        invariant 0 <= i <= |groups|
        invariant all == AllOf(groups[..i])
      {
        assert groups[..i + 1][..i] == groups[..i];
        all := all + groups[i].commands;
        i := i + 1;
      }
      assert groups[..i] == groups;
    }

    method FlatCommands() returns (all: seq<FlatCommand>)
      ensures all == Flatten(groups)
    {
      all := [];
      var i := 0;
      while i < |groups|
        invariant 0 <= i <= |groups|
        invariant all == Flatten(groups[..i])
      {
        var g := groups[i];
        var j := 0;
        while j < |g.commands|
          invariant 0 <= j <= |g.commands|
          invariant all == Flatten(groups[..i]) + FlattenGroup(g)[..j]
        {
          var cmd := g.commands[j];
          assert FlattenGroup(g)[..j + 1] == FlattenGroup(g)[..j] + [Flat(g.name, cmd)];
          all := all + [FlatCommand(cmd.id, g.name, cmd.name, cmd.command, cmd.description, cmd.defaultAction)];
          j := j + 1;
        }
        FlattenSnoc(groups, i);
        assert FlattenGroup(g)[..j] == FlattenGroup(g);
        i := i + 1;
      }
      assert groups[..i] == groups;
    }
  }

  /** The outcome of an update once the command is found: a clash with
      another command's name (checked only when the name changes) is an
      error with no change; otherwise the command is edited in place,
      keeping its ID and position. */
  predicate UpdateOutcome(gs: seq<Group>, i: int, j: int, newName: string, newCommand: string,
                          newDescription: string, newAction: string, result: seq<Group>, err: Option<ConfigError>)
  {
    0 <= i < |gs| && 0 <= j < |gs[i].commands|
    && if newName != gs[i].commands[j].name && NameTaken(gs[i].commands, newName, j) then
         err == Some(CommandExists(newName, gs[i].name)) && result == gs
       else
         err == None
         && result == WithCommands(gs, i, gs[i].commands[j := Edited(gs[i].commands[j], newName, newCommand, newDescription, newAction)])
  }
  // ---------------------------------------------------------------------
  // Outcomes of the store operations, as the interface reports them

  /** `%q` of a name; Go's escaping of quotes and control characters inside
      the name is not modelled. */
  function Quoted(s: string): string
  {
    "\"" + s + "\""
  }

  /** The text of each store error (`err.Error()`). */
  function ErrorText(e: ConfigError): (msg: string)
    ensures |msg| > 0
  {
    match e
    case GroupExists(g) => "group " + Quoted(g) + " already exists"
    case GroupNotFound(g) => "group " + Quoted(g) + " not found"
    case CommandExists(c, g) => "command " + Quoted(c) + " already exists in group " + Quoted(g)
    case CommandNotFound(c, g) => "command " + Quoted(c) + " not found in group " + Quoted(g)
    case IdNotFound(id) => "command with ID " + Itoa(id) + " not found"
  }

  /** The error `AddGroup` returns on `gs`, if any. */
  function AddGroupError(gs: seq<Group>, name: string): Option<ConfigError>
  {
    if GroupIndex(gs, name) >= 0 then Some(GroupExists(name)) else None
  }

  /** The error `AddCommand` returns on `gs`, if any. */
  function AddCommandError(gs: seq<Group>, groupName: string, cmdName: string): Option<ConfigError>
  {
    var i := GroupIndex(gs, groupName);
    if i < 0 then Some(GroupNotFound(groupName))
    else if NameTaken(gs[i].commands, cmdName, -1) then Some(CommandExists(cmdName, groupName))
    else None
  }

  /** The groups once `c` is appended to the group named `groupName`. */
  function WithAppended(gs: seq<Group>, groupName: string, c: Command): seq<Group>
    requires GroupIndex(gs, groupName) >= 0
  {
    var i := GroupIndex(gs, groupName);
    WithCommands(gs, i, gs[i].commands + [c])
  }

  /** The error `RemoveGroup` returns on `gs`, if any. */
  function RemoveGroupError(gs: seq<Group>, name: string): Option<ConfigError>
  {
    if GroupIndex(gs, name) < 0 then Some(GroupNotFound(name)) else None
  }

  /** The error `RemoveCommand` returns on `gs`, if any. */
  function RemoveCommandError(gs: seq<Group>, groupName: string, key: string): Option<ConfigError>
  {
    var i := GroupIndex(gs, groupName);
    if i < 0 then Some(GroupNotFound(groupName))
    else if CommandIndex(gs[i].commands, key) < 0 then Some(CommandNotFound(key, groupName))
    else None
  }

  /** The groups once the first command matching `key` leaves `groupName`. */
  function WithoutCommand(gs: seq<Group>, groupName: string, key: string): seq<Group>
    requires RemoveCommandError(gs, groupName, key) == None
  {
    var i := GroupIndex(gs, groupName);
    WithCommands(gs, i, RemoveAt(gs[i].commands, CommandIndex(gs[i].commands, key)))
  }

  /** The error `UpdateCommand` returns on `gs`, if any. */
  function UpdateCommandError(gs: seq<Group>, groupName: string, key: string, newName: string): Option<ConfigError>
  {
    var i := GroupIndex(gs, groupName);
    if i < 0 then Some(GroupNotFound(groupName))
    else
      var j := CommandIndex(gs[i].commands, key);
      if j < 0 then Some(CommandNotFound(key, groupName))
      else if newName != gs[i].commands[j].name && NameTaken(gs[i].commands, newName, j) then
        Some(CommandExists(newName, groupName))
      else None
  }

  /** The groups once `UpdateCommand` edits the command matching `key`. */
  function WithUpdated(gs: seq<Group>, groupName: string, key: string, newName: string, newCommand: string,
                       newDescription: string): seq<Group>
    requires UpdateCommandError(gs, groupName, key, newName) == None
  {
    var i := GroupIndex(gs, groupName);
    var j := CommandIndex(gs[i].commands, key);
    WithCommands(gs, i, gs[i].commands[j := Edited(gs[i].commands[j], newName, newCommand, newDescription, "")])
  }

  // ---------------------------------------------------------------------
  // Finding the command the interface chose

  /** The error of the interface's ID-keyed edit on `gs`, if any. */
  function UpdateByIdError(gs: seq<Group>, id: int, newName: string): Option<ConfigError>
  {
    var i := IdGroup(gs, id);
    if i < 0 then Some(IdNotFound(id))
    else
      var j := IdIndex(gs[i].commands, id);
      if newName != gs[i].commands[j].name && NameTaken(gs[i].commands, newName, j) then
        Some(CommandExists(newName, gs[i].name))
      else None
  }

  /** The groups once the command with ID `id` is edited in place. */
  function WithUpdatedById(gs: seq<Group>, id: int, newName: string, newCommand: string,
                           newDescription: string): seq<Group>
    requires UpdateByIdError(gs, id, newName) == None
  {
    var i := IdGroup(gs, id);
    var j := IdIndex(gs[i].commands, id);
    WithCommands(gs, i, gs[i].commands[j := Edited(gs[i].commands[j], newName, newCommand, newDescription, "")])
  }

  /** The error of `RemoveCommandByID` on `gs`, if any. */
  function RemoveByIdError(gs: seq<Group>, id: int): Option<ConfigError>
  {
    if IdGroup(gs, id) < 0 then Some(IdNotFound(id)) else None
  }

  /** The groups once `RemoveCommandByID` takes out the command with ID `id`. */
  function WithoutId(gs: seq<Group>, id: int): seq<Group>
    requires IdGroup(gs, id) >= 0
  {
    var i := IdGroup(gs, id);
    WithCommands(gs, i, RemoveAt(gs[i].commands, IdIndex(gs[i].commands, id)))
  }

  /** A group's IDs are among the store's, each at most as often. */
  lemma GroupIdsInBag(gs: seq<Group>, i: nat)
    requires i < |gs|
    ensures forall x :: Ids(gs[i].commands)[x] <= IdBag(gs)[x]
  {
    IdBagWithCommands(gs, i, []);
  }

  /** Two commands of one list with the same ID put it in the list's IDs twice. */
  lemma IdsTwice(cs: seq<Command>, a: nat, b: nat)
    requires a < b < |cs| && cs[a].id == cs[b].id
    ensures Ids(cs)[cs[a].id] >= 2
  {
    assert cs == cs[..b] + cs[b..];
    IdsAppend(cs[..b], cs[b..]);
    IdsMember(cs[..b]);
    IdsMember(cs[b..]);
    assert cs[..b][a].id == cs[a].id;
    assert cs[b..][0].id == cs[a].id;
  }

  /** An ID that occurs once in a list is found where it occurs. */
  lemma IdIndexOfSingle(cs: seq<Command>, j: nat)
    requires j < |cs| && Ids(cs)[cs[j].id] <= 1
    ensures IdIndex(cs, cs[j].id) == j
  {
    var j' := IdIndex(cs, cs[j].id);
    if j' < j {
      IdsTwice(cs, j', j);
      assert false;
    }
  }

  /** An ID that occurs once in the store is found in the group holding it. */
  lemma IdGroupOfSingle(gs: seq<Group>, i: nat, id: int)
    requires i < |gs| && IdIndex(gs[i].commands, id) >= 0 && IdBag(gs)[id] <= 1
    ensures IdGroup(gs, id) == i
  {
    var i' := IdGroup(gs, id);
    if 0 <= i' < i {
      IdBagWithCommands(gs, i, []);
      var w := WithCommands(gs, i, []);
      GroupIdsInBag(w, i');
      IdsMember(gs[i'].commands);
      IdsMember(gs[i].commands);
      assert false;
    }
  }

  /** With distinct IDs, the ID of the command at group `i`, position `j`
      leads back to exactly that command. */
  lemma IdFindsChosen(gs: seq<Group>, i: nat, j: nat)
    requires IdsDistinct(gs) && i < |gs| && j < |gs[i].commands|
    ensures IdGroup(gs, gs[i].commands[j].id) == i
    ensures IdIndex(gs[i].commands, gs[i].commands[j].id) == j
  {
    var cs := gs[i].commands;
    GroupIdsInBag(gs, i);
    IdsMember(cs);
    assert cs[j].id in Ids(cs);
    IdIndexOfSingle(cs, j);
    IdGroupOfSingle(gs, i, cs[j].id);
  }

  /** Keyed by ID, the interface's edit and delete reach exactly the command
      it chose: once IDs are valid, the command at group `i`, position `j`
      is the one removed, and the one edited unless its new name clashes
      with another command of that group. */
  lemma IdKeyTargetsChosen(gs: seq<Group>, nextID: int, i: nat, j: nat, newName: string, newCommand: string,
                           newDescription: string)
    requires ValidIds(gs, nextID) && i < |gs| && j < |gs[i].commands|
    ensures var c := gs[i].commands[j];
      && RemoveByIdError(gs, c.id) == None
      && WithoutId(gs, c.id) == WithCommands(gs, i, RemoveAt(gs[i].commands, j))
      && (UpdateByIdError(gs, c.id, newName) == None <==> !(newName != c.name && NameTaken(gs[i].commands, newName, j)))
      && (UpdateByIdError(gs, c.id, newName) == None ==>
            WithUpdatedById(gs, c.id, newName, newCommand, newDescription)
            == WithCommands(gs, i, gs[i].commands[j := Edited(c, newName, newCommand, newDescription, "")]))
  {
    IdFindsChosen(gs, i, j);
  }

  /** Two commands of one group: `{5, "a"}` before `{7, "5"}`. */
  const ShadowedA: Command := Command(5, "a", "echo a", "", "")
  const ShadowedB: Command := Command(7, "5", "echo b", "", "")
  const Shadowed: seq<Group> := [Group("g", [ShadowedA, ShadowedB])]

  /** `Shadowed` has valid IDs, and the key "5" finds its first command. */
  lemma ShadowedLookup()
    ensures ValidIds(Shadowed, 8)
    ensures GroupIndex(Shadowed, "g") == 0
    ensures CommandIndex(Shadowed[0].commands, "5") == 0
  {
    var cs := [ShadowedA, ShadowedB];
    assert Itoa(5) == "5";
    assert Matches(ShadowedA, "5");
    assert AllOf(Shadowed) == cs by { assert Shadowed[..0] == []; }
    assert cs[..1] == [ShadowedA];
    assert [ShadowedA][..0] == [];
    assert Ids([ShadowedA]) == Ids([]) + multiset{5};
    assert Ids(cs) == Ids([ShadowedA]) + multiset{7};
  }

  /** Keyed by name, as the source's edit and delete flows are written: in
      `Shadowed`, whose IDs are valid, the name "5" of the second command
      finds the first one by its ID. Deleting "5" removes "a", renaming "5"
      to "b" edits "a", and keeping the name "5" is refused as a clash with
      itself. */
  lemma NameKeyMissesChosen()
    ensures ValidIds(Shadowed, 8)
    ensures CommandIndex(Shadowed[0].commands, ShadowedB.name) == 0
    ensures RemoveCommandError(Shadowed, "g", ShadowedB.name) == None
    ensures WithoutCommand(Shadowed, "g", ShadowedB.name) == [Group("g", [ShadowedB])]
    ensures UpdateCommandError(Shadowed, "g", ShadowedB.name, "b") == None
    ensures WithUpdated(Shadowed, "g", ShadowedB.name, "b", "echo c", "")
            == [Group("g", [Command(5, "b", "echo c", "", ""), ShadowedB])]
    ensures UpdateCommandError(Shadowed, "g", ShadowedB.name, ShadowedB.name) == Some(CommandExists("5", "g"))
  {
    ShadowedLookup();
    var cs := [ShadowedA, ShadowedB];
    assert RemoveAt(cs, 0) == [ShadowedB];
    assert cs[1].name == "5";
    assert cs[0 := Edited(ShadowedA, "b", "echo c", "", "")] == [Command(5, "b", "echo c", "", ""), ShadowedB];
  }
}
