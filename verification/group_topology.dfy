/**
  The check that windows report their groups reciprocally.  Each client lists the members of its
  own group; the check skips a client that an earlier group has already vouched for.
 */
module GroupTopology {

  const MAX_GROUP_MEMBERS: nat := 16384

  datatype Client = Client(address: string, grouped: seq<string>)

  datatype GroupError =
    | TooManyMembers | InvalidAddress | DuplicateAddress | DuplicateMember | UnknownWindow
    | MissingItself | NotReciprocal

  datatype Result<+T> = Ok(value: T) | Err(error: GroupError)

  /** The canonical form: 0x and 1 to 16 lower-case hexadecimal digits without a leading zero. */
  predicate ValidAddress(address: string) {
    && 3 <= |address| <= 18 && address[..2] == "0x" && address[2] != '0'
    && forall i :: 2 <= i < |address| ==> '0' <= address[i] <= '9' || 'a' <= address[i] <= 'f'
  }

  function Elements(s: seq<string>): set<string> {
    set x | x in s
  }

  predicate NoDuplicates(s: seq<string>) {
    forall i, j :: 0 <= i < j < |s| ==> s[i] != s[j]
  }

  function Addresses(clients: seq<Client>): (r: seq<string>)
    ensures |r| == |clients|
    ensures forall i :: 0 <= i < |r| ==> r[i] == clients[i].address
  {
    seq(|clients|, i requires 0 <= i < |clients| => clients[i].address)
  }

  function MemberTotal(clients: seq<Client>): nat {
    if clients == [] then 0 else MemberTotal(clients[..|clients| - 1]) + |clients[|clients| - 1].grouped|
  }

  // ---- What is accepted --------------------------------------------------------------------------

  /** The list of one client: known windows, each once, the client among them unless it is empty. */
  predicate GoodList(client: Client, windows: set<string>) {
    && (forall m :: m in client.grouped ==> ValidAddress(m) && m in windows)
    && NoDuplicates(client.grouped)
    && (client.grouped != [] ==> client.address in client.grouped)
  }

  /** The members that a window reports. */
  predicate Reports(clients: seq<Client>, window: string, members: set<string>) {
    exists i :: 0 <= i < |clients| && clients[i].address == window && Elements(clients[i].grouped) == members
  }

  /** The full check of one client: every member of its group reports the very same group. */
  predicate Reciprocal(clients: seq<Client>, client: Client) {
    forall m :: m in client.grouped ==> Reports(clients, m, Elements(client.grouped))
  }

  /** The whole topology, without skipping anything. */
  predicate Consistent(clients: seq<Client>) {
    && (forall i :: 0 <= i < |clients| ==> ValidAddress(clients[i].address))
    && NoDuplicates(Addresses(clients))
    && MemberTotal(clients) <= MAX_GROUP_MEMBERS
    && (forall i :: 0 <= i < |clients| ==> GoodList(clients[i], Elements(Addresses(clients))))
    && (forall i :: 0 <= i < |clients| ==> Reciprocal(clients, clients[i]))
  }

  /** In a consistent topology two groups are the same or have no window in common. */
  lemma GroupsAreDisjoint(clients: seq<Client>, i: nat, j: nat)
    requires Consistent(clients) && i < |clients| && j < |clients|
    ensures var a, b := Elements(clients[i].grouped), Elements(clients[j].grouped);
            (a == b || a !! b) && (clients[j].address in a ==> a == b)
  {
    var a, b := Elements(clients[i].grouped), Elements(clients[j].grouped);
    if m :| m in a && m in b {
      assert Reports(clients, m, a) && Reports(clients, m, b);
      ReportIsUnique(clients, m, a, b);
    }
    if clients[j].address in a {
      assert Reports(clients, clients[j].address, a);
      assert Reports(clients, clients[j].address, b);
      ReportIsUnique(clients, clients[j].address, a, b);
    }
  }

  lemma ReportIsUnique(clients: seq<Client>, window: string, a: set<string>, b: set<string>)
    requires NoDuplicates(Addresses(clients)) && Reports(clients, window, a) && Reports(clients, window, b)
    ensures a == b
  {
    var i :| 0 <= i < |clients| && clients[i].address == window && Elements(clients[i].grouped) == a;
    var j :| 0 <= j < |clients| && clients[j].address == window && Elements(clients[j].grouped) == b;
    assert Addresses(clients)[i] == Addresses(clients)[j];
  }

  // ---- The first pass: every list by itself ------------------------------------------------------

  method CheckAddresses(clients: seq<Client>) returns (r: Result<set<string>>)
    ensures r.Ok? <==>
            && (forall i :: 0 <= i < |clients| ==> ValidAddress(clients[i].address))
            && NoDuplicates(Addresses(clients))
    ensures r.Ok? ==> r.value == Elements(Addresses(clients))
    ensures r.Err? ==> r.error in {InvalidAddress, DuplicateAddress}
  {
    var windows := {};
    for i := 0 to |clients|
      invariant forall k :: 0 <= k < i ==> ValidAddress(clients[k].address)
      invariant forall x :: x in windows <==> exists k :: 0 <= k < i && Addresses(clients)[k] == x
      invariant forall j, k :: 0 <= j < k < i ==> Addresses(clients)[j] != Addresses(clients)[k]
    {
      assert Addresses(clients)[i] == clients[i].address;
      if !ValidAddress(clients[i].address) {
        return Err(InvalidAddress);
      }
      if clients[i].address in windows {
        return Err(DuplicateAddress);
      }
      windows := windows + {clients[i].address};
    }
    return Ok(windows);
  }

  method CheckList(client: Client, windows: set<string>) returns (r: Result<set<string>>)
    ensures r.Ok? <==> GoodList(client, windows)
    ensures r.Ok? ==> r.value == Elements(client.grouped)
    ensures r.Err? ==> r.error in {InvalidAddress, DuplicateMember, UnknownWindow, MissingItself}
  {
    var members := {};
    for i := 0 to |client.grouped|
      invariant forall k :: 0 <= k < i ==> ValidAddress(client.grouped[k]) && client.grouped[k] in windows
      invariant forall x :: x in members <==> exists k :: 0 <= k < i && client.grouped[k] == x
      invariant forall j, k :: 0 <= j < k < i ==> client.grouped[j] != client.grouped[k]
    {
      var member := client.grouped[i];
      if !ValidAddress(member) {
        return Err(InvalidAddress);
      }
      if member in members {
        return Err(DuplicateMember);
      }
      members := members + {member};
      if member !in windows {
        return Err(UnknownWindow);
      }
    }
    if client.grouped != [] && client.address !in members {
      return Err(MissingItself);
    }
    return Ok(members);
  }

  /** What each of these clients reports. */
  ghost predicate Collected(clients: seq<Client>, sets: map<string, set<string>>) {
    && sets.Keys == Elements(Addresses(clients))
    && (forall i :: 0 <= i < |clients| ==>
                      clients[i].address in sets && sets[clients[i].address] == Elements(clients[i].grouped))
  }

  lemma CollectedOneMore(clients: seq<Client>, sets: map<string, set<string>>, client: Client)
    requires Collected(clients, sets) && client.address !in Elements(Addresses(clients))
    ensures Collected(clients + [client], sets[client.address := Elements(client.grouped)])
  {
    assert Addresses(clients + [client]) == Addresses(clients) + [client.address];
  }

  lemma AddressIsNew(clients: seq<Client>, i: nat)
    requires NoDuplicates(Addresses(clients)) && i < |clients|
    ensures clients[i].address !in Elements(Addresses(clients[..i]))
  {
    forall k | 0 <= k < i ensures Addresses(clients[..i])[k] != clients[i].address {
      assert Addresses(clients)[k] != Addresses(clients)[i];
    }
  }

  lemma {:induction false} TotalGrows(clients: seq<Client>, i: nat)
    requires i <= |clients|
    ensures MemberTotal(clients[..i]) <= MemberTotal(clients)
    decreases |clients| - i
  {
    if i < |clients| {
      TotalGrows(clients, i + 1);
      assert clients[..i + 1][..i] == clients[..i];
    } else {
      assert clients[..i] == clients;
    }
  }

  /** The lists of the first `i` clients are good and within the bound, and their sets are collected. */
  ghost predicate CollectedPrefix(clients: seq<Client>, windows: set<string>, i: nat, total: nat,
                                  sets: map<string, set<string>>)
    requires i <= |clients|
  {
    && total == MemberTotal(clients[..i]) <= MAX_GROUP_MEMBERS
    && (forall k :: 0 <= k < i ==> GoodList(clients[k], windows))
    && Collected(clients[..i], sets)
  }

  lemma CollectOneMore(clients: seq<Client>, windows: set<string>, i: nat, total: nat, sets: map<string, set<string>>)
    requires NoDuplicates(Addresses(clients)) && i < |clients|
    requires CollectedPrefix(clients, windows, i, total, sets)
    ensures MemberTotal(clients) >= total + |clients[i].grouped|
    ensures GoodList(clients[i], windows) && total + |clients[i].grouped| <= MAX_GROUP_MEMBERS ==>
              CollectedPrefix(clients, windows, i + 1, total + |clients[i].grouped|,
                              sets[clients[i].address := Elements(clients[i].grouped)])
  {
    assert clients[..i + 1] == clients[..i] + [clients[i]];
    TotalGrows(clients, i + 1);
    AddressIsNew(clients, i);
    CollectedOneMore(clients[..i], sets, clients[i]);
  }

  method CollectSets(clients: seq<Client>, windows: set<string>)
    returns (r: Result<map<string, set<string>>>)
    requires NoDuplicates(Addresses(clients)) && windows == Elements(Addresses(clients))
    ensures r.Ok? <==> MemberTotal(clients) <= MAX_GROUP_MEMBERS
                       && forall i :: 0 <= i < |clients| ==> GoodList(clients[i], windows)
    ensures r.Ok? ==> Collected(clients, r.value)
    ensures r.Err? ==> r.error != NotReciprocal
  {
    var total: nat := 0;
    var sets: map<string, set<string>> := map[];
    for i := 0 to |clients|
      invariant CollectedPrefix(clients, windows, i, total, sets)
    {
      CollectOneMore(clients, windows, i, total, sets);
      if |clients[i].grouped| > MAX_GROUP_MEMBERS {
        return Err(TooManyMembers);
      }
      total := total + |clients[i].grouped|;
      if total > MAX_GROUP_MEMBERS {
        return Err(TooManyMembers);
      }
      var members := CheckList(clients[i], windows);
      if members.Err? {
        return Err(members.error);
      }
      sets := sets[clients[i].address := members.value];
    }
    assert clients[..|clients|] == clients;
    return Ok(sets);
  }

  // ---- The second pass: reciprocity, with skipping -------------------------------------------------

  /** Every member of the window's group reports the window's group. */
  ghost predicate Agreed(sets: map<string, set<string>>, window: string)
    requires window in sets
  {
    forall m :: m in sets[window] ==> m in sets && sets[m] == sets[window]
  }

  lemma AgreedIsReciprocal(clients: seq<Client>, sets: map<string, set<string>>, i: nat)
    requires Collected(clients, sets) && NoDuplicates(Addresses(clients)) && i < |clients|
    ensures Agreed(sets, clients[i].address) <==> Reciprocal(clients, clients[i])
  {
    var members := Elements(clients[i].grouped);
    forall m | m in members ensures Reports(clients, m, members) <==> m in sets && sets[m] == members {
      if m in sets {
        assert m in Addresses(clients);
        var k :| 0 <= k < |clients| && Addresses(clients)[k] == m;
        assert clients[k].address == m;
      }
    }
  }

  /** Compares the group of one client with what each member reports, in any order. */
  method CheckGroup(sets: map<string, set<string>>, window: string) returns (ok: bool)
    requires window in sets && forall m :: m in sets[window] ==> m in sets
    ensures ok <==> Agreed(sets, window)
  {
    var remaining := sets[window];
    while remaining != {}
      invariant remaining <= sets[window]
      invariant forall m :: m in sets[window] && m !in remaining ==> sets[m] == sets[window]
      decreases |remaining|
    {
      var member :| member in remaining;
      if sets[member] != sets[window] {
        return false;
      }
      remaining := remaining - {member};
    }
    return true;
  }

  /** Skipping what an earlier group has vouched for accepts exactly what the full check accepts. */
  method CheckReciprocity(clients: seq<Client>, sets: map<string, set<string>>) returns (ok: bool)
    requires Collected(clients, sets)
    requires forall w, m :: w in sets && m in sets[w] ==> m in sets
    ensures ok <==> forall i :: 0 <= i < |clients| ==> Agreed(sets, clients[i].address)
  {
    var validated := {};
    for i := 0 to |clients|
      invariant validated <= sets.Keys
      invariant forall w :: w in validated ==> Agreed(sets, w)
      invariant forall k :: 0 <= k < i ==> Agreed(sets, clients[k].address)
    {
      var window := clients[i].address;
      if clients[i].grouped == [] || window in validated {
        continue;
      }
      var agreed := CheckGroup(sets, window);
      if !agreed {
        return false;
      }
      validated := validated + sets[window];
    }
    return true;
  }

  /** Accepts exactly the consistent topologies, with what each window reports. */
  method CheckTopology(clients: seq<Client>) returns (r: Result<map<string, set<string>>>)
    ensures r.Ok? <==> Consistent(clients)
    ensures r.Ok? ==> Collected(clients, r.value)
    ensures r == Err(NotReciprocal) ==> exists i :: 0 <= i < |clients| && !Reciprocal(clients, clients[i])
  {
    var windows := CheckAddresses(clients);
    if windows.Err? {
      return Err(windows.error);
    }
    var sets := CollectSets(clients, windows.value);
    if sets.Err? {
      return Err(sets.error);
    }
    forall i | 0 <= i < |clients| ensures Agreed(sets.value, clients[i].address) <==> Reciprocal(clients, clients[i]) {
      AgreedIsReciprocal(clients, sets.value, i);
    }
    var ok := CheckReciprocity(clients, sets.value);
    return if ok then Ok(sets.value) else Err(NotReciprocal);
  }
}
