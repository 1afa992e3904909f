/** The server's list of online users: a singly linked heap list that logins push on
    and quits unlink from, seen from outside as one stack of connections per name. */
module OnlineList {

  datatype User = User(cfd: int, say: int, name: string)

  // ---------------------------------------------------- the list as a value

  function Insert(users: seq<User>, u: User): seq<User> {
    [u] + users
  }

  /** The position of the first user of that name, or the length of the list. */
  function FirstOf(users: seq<User>, name: string): (i: nat)
    ensures i <= |users|
    ensures i < |users| ==> users[i].name == name
    ensures forall j :: 0 <= j < i ==> users[j].name != name
  {
    if users == [] || users[0].name == name then 0 else 1 + FirstOf(users[1..], name)
  }

  function Find(users: seq<User>, name: string): int {
    var i := FirstOf(users, name);
    if i < |users| then users[i].cfd else -1
  }

  /** The first user of that name goes; everyone else stays, in order. */
  function Quit(users: seq<User>, name: string): seq<User> {
    var i := FirstOf(users, name);
    if i < |users| then users[..i] + users[i + 1..] else users
  }

  function Mute(users: seq<User>, name: string): seq<User> {
    var i := FirstOf(users, name);
    if i < |users| then users[i := users[i].(say := 1)] else users
  }

  // -------------------------------------------------------- the list on the heap

  class Node {
    var cfd: int
    var say: int
    var name: string
    var next: Node?

    constructor (cfd: int, say: int, name: string)
      ensures this.cfd == cfd && this.say == say && this.name == name && next == null
    {
      this.cfd := cfd;
      this.say := say;
      this.name := name;
      next := null;
    }

    function Value(): User
      reads this
    {
      User(cfd, say, name)
    }
  }

  class Online {
    var head: Node?
    ghost var nodes: seq<Node>  // the nodes from head on; being finite and distinct, no cycle
    ghost var users: seq<User>  // what they hold

    ghost predicate Valid()
      reads this, nodes
    {
      && head == At(0)
      && |users| == |nodes|
      && (forall i :: 0 <= i < |nodes| ==> Linked(i))
      && (forall i, j :: 0 <= i < j < |nodes| ==> nodes[i] != nodes[j])
    }

    /** The i-th node holds the i-th user and points to the next node. */
    ghost predicate Linked(i: nat)
      requires i < |nodes| == |users|
      reads this, nodes
    {
      nodes[i].next == At(i + 1) && nodes[i].Value() == users[i]
    }

    ghost function At(i: nat): Node?
      reads this
    {
      if i < |nodes| then nodes[i] else null
    }

    constructor ()
      ensures Valid() && nodes == [] && users == []
    {
      head := null;
      nodes := [];
      users := [];
    }

    /** `insert_link` */
    method InsertLink(user: Node)
      requires Valid() && user !in nodes
      modifies this, user
      ensures Valid() && nodes == [user] + old(nodes)
      ensures users == Insert(old(users), old(user.Value()))
    {
      user.next := head;
      head := user;
      nodes := [user] + nodes;
      users := [user.Value()] + users;
      forall i | 0 < i < |nodes| ensures Linked(i) {
        assert old(Linked(i - 1));
      }
    }

    /** `get_online` */
    method GetOnline(name: string) returns (node: Node?)
      requires Valid()
      ensures node == At(FirstOf(users, name))
      ensures if node == null then Find(users, name) == -1 else node.cfd == Find(users, name) && node.name == name
    {
      node := head;
      ghost var i := 0;
      assert users[0..] == users;
      while node != null
        invariant i <= |nodes| && node == At(i)
        invariant FirstOf(users, name) == i + FirstOf(users[i..], name)
        decreases |nodes| - i
      {
        assert Linked(i);
        if node.name == name {
          return;
        }
        assert users[i..][1..] == users[i + 1..];
        node := node.next;
        i := i + 1;
      }
    }

    /** `find_fd` */
    method FindFd(name: string) returns (cfd: int)
      requires Valid()
      ensures cfd == Find(users, name)
    {
      var temp := head;
      ghost var i := 0;
      assert users[0..] == users;
      while temp != null
        invariant i <= |nodes| && temp == At(i)
        invariant FirstOf(users, name) == i + FirstOf(users[i..], name)
        decreases |nodes| - i
      {
        assert Linked(i);
        if temp.name == name {
          return temp.cfd;
        }
        assert users[i..][1..] == users[i + 1..];
        temp := temp.next;
        i := i + 1;
      }
      return -1;
    }

    /** Action 10: the first node of that name is unlinked in place. */
    method QuitUser(name: string)
      requires Valid()
      modifies this, nodes
      ensures Valid() && users == Quit(old(users), name)
      ensures var i := FirstOf(old(users), name);
        nodes == if i < |old(nodes)| then old(nodes[..i]) + old(nodes[i + 1..]) else old(nodes)
    {
      var pNode := head;
      var temp: Node? := null;
      ghost var i := 0;
      assert users[0..] == users;
      while pNode != null
        modifies {}
        invariant i <= |nodes| && pNode == At(i) && temp == if i == 0 then null else At(i - 1)
        invariant FirstOf(users, name) == i + FirstOf(users[i..], name)
        decreases |nodes| - i
      {
        assert Linked(i);
        if pNode.name == name {
          break;
        }
        assert users[i..][1..] == users[i + 1..];
        temp := pNode;
        pNode := pNode.next;
        i := i + 1;
      }
      if pNode != null {
        Unlink(temp, pNode, i);
      }
    }

    /** The relinking itself: `prev` is the node before the i-th, if there is one. */
    method Unlink(prev: Node?, node: Node, ghost i: nat)
      requires Valid() && i < |nodes| && node == nodes[i] && prev == if i == 0 then null else nodes[i - 1]
      modifies this, nodes
      ensures Valid() && nodes == old(nodes[..i] + nodes[i + 1..]) && users == old(users[..i] + users[i + 1..])
    {
      assert Linked(i);
      if prev != null {
        prev.next := node.next;
      } else {
        head := node.next;
      }
      nodes := nodes[..i] + nodes[i + 1..];
      users := users[..i] + users[i + 1..];
      forall k | 0 <= k < |nodes| ensures Linked(k) {
        assert old(Linked(if k < i then k else k + 1));
      }
    }

    /** Action 8: the first node of that name is muted. */
    method MuteUser(name: string) returns (found: bool)
      requires Valid()
      modifies this`users, nodes
      ensures Valid() && nodes == old(nodes) && users == Mute(old(users), name)
      ensures found <==> FirstOf(old(users), name) < |old(users)|
    {
      var pNode := GetOnline(name);
      if pNode == null {
        return false;
      }
      ghost var i := FirstOf(users, name);
      assert Linked(i);
      pNode.say := 1;
      users := Mute(users, name);
      forall k | 0 <= k < |nodes| ensures Linked(k) {
        assert old(Linked(k));
      }
      found := true;
    }
  }

  // ----------------------------------------------------------- per-name stacks

  datatype Event = Login(cfd: int, name: string) | Leave(name: string) | Silence(name: string)

  function After(events: seq<Event>): seq<User> {
    if events == [] then []
    else
      var before := After(events[..|events| - 1]);
      match events[|events| - 1]
      case Login(cfd, name) => Insert(before, User(cfd, 0, name))
      case Leave(name) => Quit(before, name)
      case Silence(name) => Mute(before, name)
  }

  /** An open login: its connection, and whether it is muted. */
  datatype Session = Session(cfd: int, say: int)

  /** The sessions of one name, latest first: a login pushes one that may speak, a quit pops,
      a mute silences the latest.  This says nothing about lists of users. */
  function Stack(events: seq<Event>, name: string): seq<Session> {
    if events == [] then []
    else
      var before := Stack(events[..|events| - 1], name);
      match events[|events| - 1]
      case Login(cfd, n) => if n == name then [Session(cfd, 0)] + before else before
      case Leave(n) => if n == name && before != [] then before[1..] else before
      case Silence(n) => if n == name && before != [] then [Session(before[0].cfd, 1)] + before[1..] else before
  }

  /** The sessions of the users of that name, in list order. */
  function Sessions(users: seq<User>, name: string): seq<Session> {
    if users == [] then []
    else if users[0].name == name then [Session(users[0].cfd, users[0].say)] + Sessions(users[1..], name)
    else Sessions(users[1..], name)
  }

  lemma SessionsCons(u: User, rest: seq<User>, name: string)
    ensures Sessions([u] + rest, name)
      == (if u.name == name then [Session(u.cfd, u.say)] else []) + Sessions(rest, name)
  {
    assert ([u] + rest)[1..] == rest;
  }

  lemma {:induction false} QuitPops(users: seq<User>, name: string, other: string)
    ensures var c := Sessions(users, other);
      Sessions(Quit(users, name), other) == if name == other && c != [] then c[1..] else c
  {
    hide Quit, Sessions;
    if users == [] {
      QuitNobody(name, other);
    } else {
      var u, rest := users[0], users[1..];
      assert users == [u] + rest;
      SessionsCons(u, rest, other);
      QuitHead(users, name);
      if u.name != name {
        SessionsCons(u, Quit(rest, name), other);
        QuitPops(rest, name, other);
      }
    }
  }

  lemma QuitNobody(name: string, other: string)
    ensures Quit([], name) == [] && Sessions([], other) == []
  {
  }

  lemma MuteHead(users: seq<User>, name: string)
    requires users != []
    ensures Mute(users, name)
      == if users[0].name == name then [users[0].(say := 1)] + users[1..] else [users[0]] + Mute(users[1..], name)
  {
    if users[0].name != name {
      assert FirstOf(users, name) == FirstOf(users[1..], name) + 1;
    }
  }

  lemma {:induction false} MuteSilencesLatest(users: seq<User>, name: string, other: string)
    ensures var c := Sessions(users, other);
      Sessions(Mute(users, name), other)
        == if name == other && c != [] then [Session(c[0].cfd, 1)] + c[1..] else c
  {
    if users != [] {
      hide Mute, Sessions;
      var u, rest := users[0], users[1..];
      assert users == [u] + rest;
      MuteHead(users, name);
      SessionsCons(u, rest, other);
      if u.name == name {
        SessionsCons(u.(say := 1), rest, other);
      } else {
        SessionsCons(u, Mute(rest, name), other);
        MuteSilencesLatest(rest, name, other);
      }
    }
  }

  lemma {:induction false} FindIsLatest(users: seq<User>, name: string)
    ensures var c := Sessions(users, name); Find(users, name) == if c == [] then -1 else c[0].cfd
    ensures FirstOf(users, name) < |users| <==> Sessions(users, name) != []
  {
    if users != [] && users[0].name != name {
      FindIsLatest(users[1..], name);
    }
  }

  /** After any run of logins, quits and mutes the list is, for every name at once, that
      name's stack, mute states included; a lookup gives the connection on its top, -1
      exactly when it is empty (connections being descriptors, never negative). */
  lemma {:induction false} ListRefinesStacks(events: seq<Event>, name: string)
    ensures Sessions(After(events), name) == Stack(events, name)
    ensures Find(After(events), name) == if Stack(events, name) == [] then -1 else Stack(events, name)[0].cfd
    ensures FirstOf(After(events), name) < |After(events)| <==> Stack(events, name) != []
  {
    if events != [] {
      hide Mute, Quit, Sessions, Find, FirstOf;
      var before := events[..|events| - 1];
      ListRefinesStacks(before, name);
      match events[|events| - 1]
      case Login(cfd, n) => SessionsCons(User(cfd, 0, n), After(before), name);
      case Leave(n) => QuitPops(After(before), n, name);
      case Silence(n) => MuteSilencesLatest(After(before), n, name);
    }
    FindIsLatest(After(events), name);
  }

  /** Later logins have larger connections: a way to tell in the list who came later. */
  ghost predicate Labelled(events: seq<Event>) {
    forall i, j :: 0 <= i < j < |events| && events[i].Login? && events[j].Login? ==> events[i].cfd < events[j].cfd
  }

  ghost predicate Descending(users: seq<User>) {
    forall i, j :: 0 <= i < j < |users| ==> users[i].cfd > users[j].cfd
  }

  /** Everybody listed comes from some login. */
  ghost predicate FromLogins(users: seq<User>, events: seq<Event>) {
    forall i :: 0 <= i < |users| ==> Login(users[i].cfd, users[i].name) in events
  }

  lemma QuitKeepsOrder(users: seq<User>, name: string, events: seq<Event>)
    requires Descending(users) && FromLogins(users, events)
    ensures Descending(Quit(users, name)) && FromLogins(Quit(users, name), events)
  {
    var i, left := FirstOf(users, name), Quit(users, name);
    if i < |users| {
      forall k | 0 <= k < |left| ensures left[k] == users[if k < i then k else k + 1] {
      }
    }
  }

  /** Across all names together the list has the latest login first. */
  lemma {:induction false} LatestFirst(events: seq<Event>)
    requires Labelled(events)
    ensures Descending(After(events)) && FromLogins(After(events), events)
  {
    if events != [] {
      var before, e := events[..|events| - 1], events[|events| - 1];
      LatestFirst(before);
      MoreLogins(After(before), before, e);
      assert before + [e] == events;
      match e
      case Login(cfd, n) => assert events[|events| - 1] == Login(cfd, n);
      case Leave(n) => QuitKeepsOrder(After(before), n, events);
      case Silence(n) => MuteKeepsOrder(After(before), n, events);
    }
  }

  lemma MoreLogins(users: seq<User>, events: seq<Event>, e: Event)
    requires FromLogins(users, events)
    ensures FromLogins(users, events + [e])
  {
    forall login | login in events ensures login in events + [e] {
    }
  }

  lemma MuteKeepsOrder(users: seq<User>, name: string, events: seq<Event>)
    requires Descending(users) && FromLogins(users, events)
    ensures Descending(Mute(users, name)) && FromLogins(Mute(users, name), events)
  {
    var muted := Mute(users, name);
    forall k | 0 <= k < |muted| ensures muted[k].cfd == users[k].cfd && muted[k].name == users[k].name {
    }
  }

  /** Logging in and quitting again restores the list, whoever else is in it. */
  lemma LoginThenQuit(users: seq<User>, u: User)
    ensures Quit(Insert(users, u), u.name) == users
  {
    assert Insert(users, u)[1..] == users;
  }

  /** Quits of different names commute: neither sees the other's nodes. */
  lemma {:induction false} QuitsCommute(users: seq<User>, a: string, b: string)
    ensures Quit(Quit(users, a), b) == Quit(Quit(users, b), a)
  {
    if users != [] && a != b {
      var u, rest := users[0], users[1..];
      QuitHead(users, a);
      QuitHead(users, b);
      if u.name != a && u.name != b {
        QuitHead([u] + Quit(rest, a), b);
        QuitHead([u] + Quit(rest, b), a);
        QuitsCommute(rest, a, b);
      } else if u.name == a {
        QuitHead([u] + Quit(rest, b), a);
      } else {
        QuitHead([u] + Quit(rest, a), b);
      }
    }
  }

  lemma RemoveBehind(u: User, rest: seq<User>, i: nat)
    requires i < |rest|
    ensures ([u] + rest)[..i + 1] + ([u] + rest)[i + 2..] == [u] + (rest[..i] + rest[i + 1..])
  {
  }

  lemma QuitHead(users: seq<User>, name: string)
    requires users != []
    ensures Quit(users, name) == if users[0].name == name then users[1..] else [users[0]] + Quit(users[1..], name)
  {
    if users[0].name != name {
      var u, rest, i := users[0], users[1..], FirstOf(users[1..], name);
      assert FirstOf(users, name) == i + 1;
      hide FirstOf;
      assert users == [u] + rest;
      if i < |rest| {
        RemoveBehind(u, rest, i);
        assert Quit(users, name) == ([u] + rest)[..i + 1] + ([u] + rest)[i + 2..];
      }
    }
  }
}
