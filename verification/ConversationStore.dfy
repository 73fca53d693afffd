/**
 * The conversation each session id is in the middle of (src/client.rs, src/events.rs).
 *
 * The client keeps a hash map with one copy of an entry per alias. Here that map is proved to be
 * an index of a plain list of conversations, oldest first.
 */
module ConversationStore {
  import opened Wrappers
  import opened Numbers
  import opened Json

  const MAX_REMEMBERED_CONVERSATIONS: nat := 32

  const MAX_CONVERSATION_ALIASES: nat := 8

  const CONVERSATION_SESSION_FIELDS: seq<string> :=
    ["converse_handlers", "active_handlers", "active_skills", "context", "utterance_states", "response_mode"]

  /** Every id that reaches one conversation, and the fields carried to its next turn. */
  datatype Conversation = Conversation(aliases: seq<string>, kept: Fields)

  /** What the hash map files under each alias. */
  datatype Entry = Entry(inserted: nat, talk: Conversation)

  type Store = map<string, Entry>

  // ---------------------------------------------------------------------------------------------
  // The fields carried from turn to turn
  // ---------------------------------------------------------------------------------------------

  /** The fields `remember_conversation` keeps: those that are truthy. */
  predicate IsTruthy(value: Json)
  {
    match value
    case Null => false
    case Bool(flag) => flag
    case Number(token) => !IsZero(token)
    case String(text) => text != []
    case Array(items) => items != []
    case Object(fields) => fields != map[]
  }

  /** The fields `carry_conversation` later lets through. */
  predicate IsCarried(value: Json)
  {
    match value
    case Null => false
    case Array(items) => items != []
    case Object(fields) => fields != map[]
    case _ => true
  }

  ghost function KeptFields(context: Fields): Fields
  {
    var session := ObjectAt(context, "session");
    map f | f in CONVERSATION_SESSION_FIELDS && f in session && IsTruthy(session[f]) :: session[f]
  }

  method CollectKept(context: Fields) returns (kept: Fields)
    ensures kept == KeptFields(context)
  {
    hide CONVERSATION_SESSION_FIELDS, IsTruthy;
    var session := ObjectAt(context, "session");
    kept := map[];
    for i := 0 to |CONVERSATION_SESSION_FIELDS|
      invariant forall f :: f in kept <==>
        f in CONVERSATION_SESSION_FIELDS[..i] && f in session && IsTruthy(session[f])
      invariant forall f :: f in kept ==> kept[f] == session[f]
    {
      var field := CONVERSATION_SESSION_FIELDS[i];
      if field in session && IsTruthy(session[field]) {
        kept := kept[field := session[field]];
      }
    }
    assert CONVERSATION_SESSION_FIELDS[..|CONVERSATION_SESSION_FIELDS|] == CONVERSATION_SESSION_FIELDS;
  }

  /** This turn's own fields win; one it left out is taken from the turn before. */
  ghost function Carried(previous: Fields, session: Fields): Fields
  {
    session + map f | f in CONVERSATION_SESSION_FIELDS && f !in session && f in previous && IsCarried(previous[f])
                   :: previous[f]
  }

  method CarryConversation(previous: Option<Fields>, session: Fields) returns (carried: Fields)
    ensures carried == if previous.Some? then Carried(previous.value, session) else session
  {
    hide CONVERSATION_SESSION_FIELDS, IsCarried;
    carried := session;
    if previous.None? {
      return;
    }
    for i := 0 to |CONVERSATION_SESSION_FIELDS|
      invariant forall f :: f in carried <==> (f in session ||
        (f in CONVERSATION_SESSION_FIELDS[..i] && f in previous.value && IsCarried(previous.value[f])))
      invariant forall f :: f in carried ==> carried[f] == if f in session then session[f] else previous.value[f]
    {
      var field := CONVERSATION_SESSION_FIELDS[i];
      if field !in carried {
        if field in previous.value && IsCarried(previous.value[field]) {
          carried := carried[field := previous.value[field]];
        }
      }
    }
    assert CONVERSATION_SESSION_FIELDS[..|CONVERSATION_SESSION_FIELDS|] == CONVERSATION_SESSION_FIELDS;
  }

  /** A turn gets its own fields, and of those it leaves out the listed ones that are not null and not empty. */
  lemma CarriesExactly(previous: Fields, session: Fields, f: string)
    ensures f in Carried(previous, session) <==>
            || f in session
            || (&& IsListed(f) && f in previous
                && previous[f] != Null && previous[f] != Array([]) && previous[f] != Object(map[]))
    ensures f in Carried(previous, session) ==>
              Carried(previous, session)[f] == if f in session then session[f] else previous[f]
  {
    hide CONVERSATION_SESSION_FIELDS, IsListed;
    ListedAreTheSessionFields(f);
  }

  /** Every field one turn keeps reaches the next: the carry filter drops none the truth filter kept. */
  lemma NothingKeptIsLost(context: Fields, session: Fields)
    ensures Carried(KeptFields(context), session).Keys == session.Keys + KeptFields(context).Keys
    ensures forall f :: f in session ==> Carried(KeptFields(context), session)[f] == session[f]
    ensures forall f :: f in KeptFields(context) && f !in session ==>
      Carried(KeptFields(context), session)[f] == ObjectAt(context, "session")[f]
  {
    var kept := KeptFields(context);
    forall f | f in kept
      ensures IsCarried(kept[f])
    {
    }
  }

  // ---------------------------------------------------------------------------------------------
  // The list the store stands for
  // ---------------------------------------------------------------------------------------------

  predicate NoDuplicates(s: seq<string>)
  {
    forall i, j :: 0 <= i < j < |s| ==> s[i] != s[j]
  }

  predicate Touches(talk: Conversation, keys: seq<string>)
  {
    exists a :: a in talk.aliases && a in keys
  }

  /** `keys`, then each id of `more` not there yet. */
  function Absorb(keys: seq<string>, more: seq<string>): (r: seq<string>)
    ensures |keys| <= |r| && r[..|keys|] == keys
    ensures forall k :: k in r <==> k in keys || k in more
    ensures NoDuplicates(keys) ==> NoDuplicates(r)
    decreases |more|
  {
    if more == [] then keys
    else
      assert more == more[..|more| - 1] + [more[|more| - 1]];
      var most, last := Absorb(keys, more[..|more| - 1]), more[|more| - 1];
      if last in most then most else most + [last]
  }

  function AliasesOf(list: seq<Conversation>, id: string): seq<string>
  {
    if list == [] then []
    else if id in list[0].aliases then list[0].aliases
    else AliasesOf(list[1..], id)
  }

  function Find(list: seq<Conversation>, id: string): Option<Fields>
  {
    if list == [] then None
    else if id in list[0].aliases then Some(list[0].kept)
    else Find(list[1..], id)
  }

  /** `keys` and every alias of a conversation one of `ids` reaches. */
  function Merged(list: seq<Conversation>, ids: seq<string>, keys: seq<string>): seq<string>
    decreases |ids|
  {
    if ids == [] then keys
    else Absorb(Merged(list, ids[..|ids| - 1], keys), AliasesOf(list, ids[|ids| - 1]))
  }

  function Untouched(list: seq<Conversation>, ids: seq<string>): (r: seq<Conversation>)
    ensures forall t :: t in r <==> t in list && !Touches(t, ids)
    ensures |r| <= |list|
  {
    if list == [] then []
    else
      assert list == [list[0]] + list[1..];
      if Touches(list[0], ids) then Untouched(list[1..], ids)
      else [list[0]] + Untouched(list[1..], ids)
  }

  function DropOldest(list: seq<Conversation>): seq<Conversation>
  {
    if |list| > MAX_REMEMBERED_CONVERSATIONS then list[1..] else list
  }

  /** The conversation one call appends, before the list is cut to size. */
  function Appended(list: seq<Conversation>, ids: seq<string>, kept: Fields): Conversation
  {
    var keys := Merged(list, Absorb([], ids), Absorb([], ids));
    Conversation(keys[..Min(|keys|, MAX_CONVERSATION_ALIASES)], kept)
  }

  /** One call: drop every conversation the ids reach, then append the merged one, newest last. */
  function Remembered(list: seq<Conversation>, ids: seq<string>, kept: Fields): seq<Conversation>
  {
    if ids == [] then list
    else if kept == map[] then Untouched(list, ids)
    else DropOldest(Untouched(list, ids) + [Appended(list, ids, kept)])
  }

  // ---------------------------------------------------------------------------------------------
  // The index
  // ---------------------------------------------------------------------------------------------

  ghost predicate Increasing(turns: seq<Entry>)
  {
    forall i, j :: 0 <= i < j < |turns| ==> turns[i].inserted < turns[j].inserted
  }

  /** Each alias of each turn, and nothing else, maps to that turn. */
  ghost predicate Indexes(store: Store, turns: seq<Entry>)
  {
    && (forall t, a :: t in turns && a in t.talk.aliases ==> a in store && store[a] == t)
    && (forall k :: k in store ==> store[k] in turns && k in store[k].talk.aliases)
  }

  ghost function Talks(turns: seq<Entry>): (r: seq<Conversation>)
    ensures |r| == |turns|
    ensures forall i :: 0 <= i < |r| ==> r[i] == turns[i].talk
  {
    seq(|turns|, i requires 0 <= i < |turns| => turns[i].talk)
  }

  ghost function StillThere(turns: seq<Entry>, ids: seq<string>): (r: seq<Entry>)
    ensures forall t :: t in r <==> t in turns && !Touches(t.talk, ids)
  {
    if turns == [] then []
    else
      assert turns == [turns[0]] + turns[1..];
      var rest := StillThere(turns[1..], ids);
      if Touches(turns[0].talk, ids) then rest else [turns[0]] + rest
  }

  lemma {:induction false} StillThereIncreases(turns: seq<Entry>, ids: seq<string>)
    requires Increasing(turns)
    ensures Increasing(StillThere(turns, ids))
  {
    hide Touches;
    if turns != [] {
      StillThereIncreases(turns[1..], ids);
      var rest := StillThere(turns[1..], ids);
      forall j | 0 <= j < |rest|
        ensures turns[0].inserted < rest[j].inserted
      {
        assert rest[j] in turns[1..];
      }
    }
  }

  lemma {:induction false} StillThereIsUntouched(turns: seq<Entry>, ids: seq<string>)
    ensures Talks(StillThere(turns, ids)) == Untouched(Talks(turns), ids)
  {
    hide Touches, Increasing;
    if turns != [] {
      StillThereIsUntouched(turns[1..], ids);
      assert Talks(turns)[1..] == Talks(turns[1..]);
    }
  }

  lemma {:induction false} OnlyOneHolds(list: seq<Conversation>, id: string, talk: Conversation)
    requires talk in list && id in talk.aliases
    requires forall c :: c in list && id in c.aliases ==> c == talk
    ensures AliasesOf(list, id) == talk.aliases && Find(list, id) == Some(talk.kept)
  {
    if id in list[0].aliases {
      assert list[0] in list;
    } else {
      assert list == [list[0]] + list[1..];
      OnlyOneHolds(list[1..], id, talk);
    }
  }

  lemma {:induction false} NoneHolds(list: seq<Conversation>, id: string)
    requires forall c :: c in list ==> id !in c.aliases
    ensures AliasesOf(list, id) == [] && Find(list, id) == None
  {
    if list != [] {
      assert list[0] in list;
      NoneHolds(list[1..], id);
    }
  }

  /** Looking an id up in the map finds what the list finds. */
  lemma LookupFindsTheSame(store: Store, turns: seq<Entry>, id: string)
    requires Indexes(store, turns)
    ensures AliasesOf(Talks(turns), id) == if id in store then store[id].talk.aliases else []
    ensures Find(Talks(turns), id) == if id in store then Some(store[id].talk.kept) else None
  {
    if id in store {
      OnlyOneHolds(Talks(turns), id, store[id].talk);
    } else {
      NoneHolds(Talks(turns), id);
    }
  }

  // ---------------------------------------------------------------------------------------------
  // The worklist
  // ---------------------------------------------------------------------------------------------

  /** Each key lies in its own group, and every sibling is filed with an equal entry. */
  ghost predicate Coherent(store: Store)
  {
    forall k :: k in store ==>
      && k in store[k].talk.aliases
      && forall a :: a in store[k].talk.aliases ==> a in store && store[a] == store[k]
  }

  function AliasesAt(store: Store, id: string): seq<string>
  {
    if id in store then store[id].talk.aliases else []
  }

  ghost function Joined(store: Store, ids: seq<string>, keys: seq<string>): seq<string>
    decreases |ids|
  {
    if ids == [] then keys
    else Absorb(Joined(store, ids[..|ids| - 1], keys), AliasesAt(store, ids[|ids| - 1]))
  }

  /** The map without the groups that `keys` reach. */
  ghost function Left(store: Store, keys: seq<string>): Store
  {
    map k | k in store && !Touches(store[k].talk, keys) :: store[k]
  }

  /** Every key is one of `first`, or in a group that `seen` reach. */
  ghost predicate Reached(store: Store, first: seq<string>, keys: seq<string>, seen: seq<string>)
  {
    forall k :: k in keys ==> k in first || (k in store && Touches(store[k].talk, seen))
  }

  /** Every alias of a group that `seen` reach is among the keys. */
  ghost predicate Closed(store: Store, keys: seq<string>, seen: seq<string>)
  {
    forall k, a :: k in store && Touches(store[k].talk, seen) && a in store[k].talk.aliases ==> a in keys
  }

  ghost predicate TakingOver(store: Store, first: seq<string>, left: Store, keys: seq<string>, index: nat)
  {
    && index <= |keys| && |first| <= |keys| && keys[..|first|] == first && NoDuplicates(keys)
    && left == Left(store, keys[..index])
    && keys == Joined(store, first[..Min(index, |first|)], first)
    && Reached(store, first, keys, first[..Min(index, |first|)])
    && Closed(store, keys, keys[..index])
  }

  lemma TouchesMore(talk: Conversation, some: seq<string>, more: seq<string>)
    requires forall k :: k in some ==> k in more
    ensures Touches(talk, some) ==> Touches(talk, more)
  {
  }

  lemma TouchesOneMore(talk: Conversation, keys: seq<string>, i: nat)
    requires i < |keys|
    ensures Touches(talk, keys[..i + 1]) <==> Touches(talk, keys[..i]) || keys[i] in talk.aliases
  {
    assert keys[..i + 1] == keys[..i] + [keys[i]];
  }

  /** Past this turn's own ids the map holds nothing for a key: its group is already gone. */
  lemma InheritedAreGone(store: Store, first: seq<string>, keys: seq<string>, index: nat)
    requires |first| <= index < |keys| && keys[..|first|] == first && NoDuplicates(keys)
    requires Reached(store, first, keys, first)
    ensures keys[index] !in Left(store, keys[..index])
  {
    assert forall j :: 0 <= j < |first| ==> first[j] == keys[j] != keys[index];
    assert forall k :: k in first ==> k in keys[..index] by {
      assert keys[..index][..|first|] == first;
    }
    TouchesMore(store[keys[index]].talk, first, keys[..index]);
  }

  lemma LeftWithout(store: Store, keys: seq<string>, index: nat)
    requires Coherent(store) && index < |keys| && keys[index] in store
    ensures Left(store, keys[..index + 1]) ==
      Left(store, keys[..index]) - {keys[index]} - (set a | a in store[keys[index]].talk.aliases)
  {
    forall k | k in store
      ensures Touches(store[k].talk, keys[..index + 1]) <==>
        Touches(store[k].talk, keys[..index]) || k in store[keys[index]].talk.aliases
    {
      TouchesOneMore(store[k].talk, keys, index);
    }
  }

  lemma ClosedWith(store: Store, keys: seq<string>, index: nat)
    requires Coherent(store) && index < |keys| && keys[index] in store
    requires Closed(store, keys, keys[..index])
    ensures Closed(store, Absorb(keys, store[keys[index]].talk.aliases), keys[..index + 1])
  {
    forall k, a | k in store && Touches(store[k].talk, keys[..index + 1]) && a in store[k].talk.aliases
      ensures a in Absorb(keys, store[keys[index]].talk.aliases)
    {
      TouchesOneMore(store[k].talk, keys, index);
    }
  }

  lemma ReachedWith(store: Store, first: seq<string>, keys: seq<string>, index: nat)
    requires Coherent(store) && index < |first| && first[index] in store
    requires Reached(store, first, keys, first[..index])
    ensures Reached(store, first, Absorb(keys, store[first[index]].talk.aliases), first[..index + 1])
  {
    forall k | k in Absorb(keys, store[first[index]].talk.aliases) && k !in first
      ensures k in store && Touches(store[k].talk, first[..index + 1])
    {
      TouchesOneMore(store[k].talk, first, index);
    }
  }

  lemma JoinedWith(store: Store, first: seq<string>, index: nat)
    requires index < |first|
    ensures Joined(store, first[..index + 1], first) ==
      Absorb(Joined(store, first[..index], first), AliasesAt(store, first[index]))
  {
    assert first[..index + 1][..index] == first[..index];
  }

  lemma StillFirst(store: Store, first: seq<string>, keys: seq<string>, index: nat)
    requires index < |keys| && |first| <= |keys| && keys[..|first|] == first && NoDuplicates(keys)
    requires keys[index] in Left(store, keys[..index])
    requires Reached(store, first, keys, first[..Min(index, |first|)])
    ensures index < |first| && first[index] == keys[index]
  {
    if |first| <= index {
      assert first[..|first|] == first;
      InheritedAreGone(store, first, keys, index);
    }
    assert first[index] == keys[..|first|][index];
  }

  lemma PrefixKept(keys: seq<string>, keys': seq<string>, i: nat)
    requires i <= |keys| <= |keys'| && keys'[..|keys|] == keys
    ensures keys'[..i] == keys[..i]
  {
    assert keys'[..|keys|][..i] == keys'[..i];
  }

  lemma FoundOne(store: Store, first: seq<string>, left: Store, keys: seq<string>, index: nat)
    requires Coherent(store) && TakingOver(store, first, left, keys, index)
    requires index < |keys| && keys[index] in left
    ensures TakingOver(store, first, left - {keys[index]} - (set a | a in left[keys[index]].talk.aliases),
                       Absorb(keys, left[keys[index]].talk.aliases), index + 1)
  {
    hide Absorb, NoDuplicates;
    StillFirst(store, first, keys, index);
    var keys' := Absorb(keys, AliasesAt(store, keys[index]));
    PrefixKept(keys, keys', index + 1);
    PrefixKept(keys, keys', |first|);
    LeftWithout(store, keys, index);
    JoinedWith(store, first, index);
    ReachedWith(store, first, keys, index);
    ClosedWith(store, keys, index);
  }

  lemma FoundNone(store: Store, first: seq<string>, left: Store, keys: seq<string>, index: nat)
    requires Coherent(store) && TakingOver(store, first, left, keys, index)
    requires index < |keys| && keys[index] !in left
    ensures TakingOver(store, first, left, keys, index + 1)
  {
    hide NoDuplicates, Left, Absorb, Coherent, Closed;
    SameLeft(store, keys, index);
    if index < |first| {
      assert first[index] == keys[..|first|][index];
      JoinedWith(store, first, index);
      AbsorbNothing(keys, AliasesAt(store, keys[index]));
      ReachedMore(store, first, keys, first[..index], first[..index + 1]);
    }
  }

  /** A key the map no longer holds removes nothing more, and reaches only what is among the keys. */
  lemma SameLeft(store: Store, keys: seq<string>, index: nat)
    requires Coherent(store) && index < |keys| && keys[index] !in Left(store, keys[..index])
    requires Closed(store, keys, keys[..index])
    ensures Left(store, keys[..index + 1]) == Left(store, keys[..index])
    ensures Closed(store, keys, keys[..index + 1])
    ensures forall a :: a in AliasesAt(store, keys[index]) ==> a in keys
  {
    forall k | k in store
      ensures Touches(store[k].talk, keys[..index + 1]) <==> Touches(store[k].talk, keys[..index])
    {
      TouchesOneMore(store[k].talk, keys, index);
    }
  }

  lemma ReachedMore(store: Store, first: seq<string>, keys: seq<string>, some: seq<string>, more: seq<string>)
    requires Reached(store, first, keys, some)
    requires forall k :: k in some ==> k in more
    ensures Reached(store, first, keys, more)
  {
    forall k | k in store && Touches(store[k].talk, some)
      ensures Touches(store[k].talk, more)
    {
      TouchesMore(store[k].talk, some, more);
    }
  }

  lemma {:induction false} AbsorbNothing(keys: seq<string>, more: seq<string>)
    requires forall k :: k in more ==> k in keys
    ensures Absorb(keys, more) == keys
    decreases |more|
  {
    if more != [] {
      assert more == more[..|more| - 1] + [more[|more| - 1]];
      AbsorbNothing(keys, more[..|more| - 1]);
    }
  }

  /** What this turn's ids reach is all that the inherited ones reach. */
  lemma SameReach(store: Store, first: seq<string>, keys: seq<string>)
    requires Coherent(store) && Reached(store, first, keys, first)
    requires forall k :: k in first ==> k in keys
    ensures Left(store, keys) == Left(store, first)
  {
    forall k | k in store
      ensures Touches(store[k].talk, keys) <==> Touches(store[k].talk, first)
    {
      TouchesMore(store[k].talk, first, keys);
    }
  }

  lemma StartTakingOver(store: Store, first: seq<string>)
    requires NoDuplicates(first)
    ensures TakingOver(store, first, store, first, 0)
  {
  }

  lemma DoneTakingOver(store: Store, first: seq<string>, left: Store, keys: seq<string>)
    requires Coherent(store) && TakingOver(store, first, left, keys, |keys|)
    ensures keys == Joined(store, first, first) && NoDuplicates(keys)
    ensures left == Left(store, first) == Left(store, keys)
  {
    assert keys[..|keys|] == keys && first[..|first|] == first;
    SameReach(store, first, keys);
  }

  /** Removes one entry and every alias of its group, adding the aliases not among the keys yet. */
  method TakeGroup(store: Store, key: string, keys: seq<string>) returns (left: Store, keys': seq<string>)
    requires key in store
    ensures left == store - {key} - (set a | a in store[key].talk.aliases)
    ensures keys' == Absorb(keys, store[key].talk.aliases)
  {
    var group := store[key].talk.aliases;
    left, keys' := store - {key}, keys;
    for i := 0 to |group|
      invariant left == store - {key} - (set a | a in group[..i])
      invariant keys' == Absorb(keys, group[..i])
    {
      assert group[..i + 1][..i] == group[..i];
      left := left - {group[i]};
      if group[i] !in keys' {
        keys' := keys' + [group[i]];
      }
    }
    assert group[..|group|] == group;
  }

  /**
   * Removes from the map every id the keys already reach, adding those ids to the keys as it goes:
   * the list of keys grows while it is walked.
   */
  method TakeOver(store: Store, first: seq<string>) returns (left: Store, keys: seq<string>)
    requires Coherent(store) && NoDuplicates(first)
    ensures keys == Joined(store, first, first) && NoDuplicates(keys) && |first| <= |keys|
    ensures left == Left(store, first) == Left(store, keys)
  {
    left, keys := store, first;
    var index := 0;
    StartTakingOver(store, first);
    while index < |keys|
      invariant TakingOver(store, first, left, keys, index)
      decreases |left.Keys|, |keys| - index
    {
      ghost var before := left;
      if keys[index] in left {
        FoundOne(store, first, left, keys, index);
        left, keys := TakeGroup(left, keys[index], keys);
        Smaller(left.Keys, before.Keys);
      } else {
        FoundNone(store, first, left, keys, index);
      }
      index := index + 1;
    }
    DoneTakingOver(store, first, left, keys);
  }

  lemma Smaller(a: set<string>, b: set<string>)
    requires a < b
    ensures |a| < |b|
  {
    assert b == a + (b - a);
    assert |b| == |a| + |b - a|;
  }

  // ---------------------------------------------------------------------------------------------
  // The map and the list agree on a merge, an insertion and an eviction
  // ---------------------------------------------------------------------------------------------

  lemma IndexIsCoherent(store: Store, turns: seq<Entry>)
    requires Indexes(store, turns)
    ensures Coherent(store)
  {
  }

  lemma {:induction false} JoinedIsMerged(store: Store, turns: seq<Entry>, ids: seq<string>, keys: seq<string>)
    requires Indexes(store, turns)
    ensures Joined(store, ids, keys) == Merged(Talks(turns), ids, keys)
    decreases |ids|
  {
    if ids != [] {
      JoinedIsMerged(store, turns, ids[..|ids| - 1], keys);
      LookupFindsTheSame(store, turns, ids[|ids| - 1]);
    }
  }

  lemma LeftIndexes(store: Store, turns: seq<Entry>, ids: seq<string>, rest: seq<Entry>)
    requires Indexes(store, turns)
    requires forall t :: t in rest <==> t in turns && !Touches(t.talk, ids)
    ensures Indexes(Left(store, ids), rest)
  {
    var left := Left(store, ids);
    forall t, a | t in rest && a in t.talk.aliases
      ensures a in left && left[a] == t
    {
      assert store[a] == t;
    }
  }

  ghost function Filed(keys: seq<string>, entry: Entry): Store
  {
    map k | k in keys :: entry
  }

  lemma InsertedIndexes(store: Store, turns: seq<Entry>, entry: Entry)
    requires Indexes(store, turns)
    requires forall t :: t in turns ==> !Touches(t.talk, entry.talk.aliases)
    ensures Indexes(store + Filed(entry.talk.aliases, entry), turns + [entry])
  {
    var after := store + Filed(entry.talk.aliases, entry);
    forall t, a | t in turns + [entry] && a in t.talk.aliases
      ensures a in after && after[a] == t
    {
    }
  }

  method FileUnder(store: Store, keys: seq<string>, entry: Entry) returns (filed: Store)
    ensures filed == store + Filed(keys, entry)
  {
    filed := store;
    for i := 0 to |keys|
      invariant forall k :: k in filed <==> k in store || k in keys[..i]
      invariant forall k :: k in filed ==> filed[k] == if k in keys[..i] then entry else store[k]
    {
      assert keys[..i + 1] == keys[..i] + [keys[i]];
      filed := filed[keys[i] := entry];
    }
    assert keys[..|keys|] == keys;
  }

  /** Conversations held, counting a group of aliases once. */
  function DistinctConversations(store: Store): nat
  {
    |set k | k in store :: store[k].inserted|
  }

  ghost function Stamps(turns: seq<Entry>): set<nat>
  {
    set t | t in turns :: t.inserted
  }

  lemma StampsWithFirst(turns: seq<Entry>)
    requires turns != [] && Increasing(turns)
    ensures Increasing(turns[1..])
    ensures turns[0].inserted !in Stamps(turns[1..]) && Stamps(turns) == {turns[0].inserted} + Stamps(turns[1..])
  {
    var first, rest := turns[0], turns[1..];
    assert turns == [first] + rest;
    forall t | t in rest ensures t.inserted != first.inserted {
      var i :| 0 <= i < |rest| && rest[i] == t;
      assert turns[i + 1] == t;
    }
  }

  lemma {:induction false} CountStamps(turns: seq<Entry>)
    requires Increasing(turns)
    ensures |Stamps(turns)| == |turns|
  {
    if turns == [] {
      assert Stamps(turns) == {};
    } else {
      StampsWithFirst(turns);
      hide Increasing, Stamps;
      CountStamps(turns[1..]);
    }
  }

  ghost predicate AllReachable(turns: seq<Entry>)
  {
    forall t :: t in turns ==> t.talk.aliases != []
  }

  lemma DistinctIsLength(store: Store, turns: seq<Entry>)
    requires Indexes(store, turns) && Increasing(turns) && AllReachable(turns)
    ensures DistinctConversations(store) == |turns|
  {
    CountStamps(turns);
    var filed, listed := set k | k in store :: store[k].inserted, Stamps(turns);
    forall n | n in listed
      ensures n in filed
    {
      var t :| t in turns && t.inserted == n;
      assert t.talk.aliases[0] in store;
    }
    forall n | n in filed
      ensures n in listed
    {
      var k :| k in store && store[k].inserted == n;
      assert store[k] in turns;
    }
    assert filed == listed;
  }

  lemma OldestIsFirst(store: Store, turns: seq<Entry>, key: string)
    requires Indexes(store, turns) && Increasing(turns) && AllReachable(turns)
    requires key in store && forall k :: k in store ==> store[key].inserted <= store[k].inserted
    ensures turns != [] && store[key] == turns[0]
  {
    var i :| 0 <= i < |turns| && turns[i] == store[key];
    assert turns[0].talk.aliases[0] in store && store[turns[0].talk.aliases[0]] == turns[0];
  }

  lemma OthersDiffer(turns: seq<Entry>)
    requires Increasing(turns) && turns != []
    ensures forall t :: t in turns[1..] <==> t in turns && t != turns[0]
    ensures Increasing(turns[1..])
  {
    assert turns == [turns[0]] + turns[1..];
  }

  lemma WithoutFirst(store: Store, turns: seq<Entry>)
    requires Indexes(store, turns) && Increasing(turns) && turns != [] && AllReachable(turns)
    ensures Indexes(store - (set a | a in turns[0].talk.aliases), turns[1..])
    ensures Increasing(turns[1..]) && AllReachable(turns[1..])
  {
    hide Increasing;
    OthersDiffer(turns);
    var first, others := turns[0], turns[1..];
    assert first in turns;
    var left := store - set a | a in first.talk.aliases;
    forall t, a | t in others && a in t.talk.aliases
      ensures a in left && left[a] == t
    {
      assert store[a] == t;
    }
    forall k | k in left
      ensures left[k] in others && k in left[k].talk.aliases
    {
    }
  }

  lemma SomeOldest(store: Store, turns: seq<Entry>)
    requires Indexes(store, turns) && Increasing(turns) && AllReachable(turns) && turns != []
    ensures exists key :: key in store && forall k :: k in store ==> store[key].inserted <= store[k].inserted
  {
    var key := turns[0].talk.aliases[0];
    assert key in store && store[key] == turns[0];
    forall k | k in store
      ensures turns[0].inserted <= store[k].inserted
    {
      var i :| 0 <= i < |turns| && turns[i] == store[k];
    }
  }

  method EvictOne(store: Store, ghost turns: seq<Entry>) returns (left: Store)
    requires Indexes(store, turns) && Increasing(turns) && AllReachable(turns) && turns != []
    ensures Indexes(left, turns[1..]) && Increasing(turns[1..]) && AllReachable(turns[1..])
  {
    SomeOldest(store, turns);
    var key :| key in store && forall k :: k in store ==> store[key].inserted <= store[k].inserted;
    OldestIsFirst(store, turns, key);
    WithoutFirst(store, turns);
    left := RemoveAll(store, store[key].talk.aliases);
  }

  /** The newest turns, as many as a client remembers. */
  ghost function Newest(turns: seq<Entry>): seq<Entry>
  {
    if |turns| > MAX_REMEMBERED_CONVERSATIONS then turns[|turns| - MAX_REMEMBERED_CONVERSATIONS..] else turns
  }

  /** Removes the oldest group while more are held than the client remembers. */
  method EvictOldest(store: Store, ghost turns: seq<Entry>) returns (left: Store)
    requires Indexes(store, turns) && Increasing(turns) && AllReachable(turns)
    ensures Indexes(left, Newest(turns)) && Increasing(Newest(turns))
  {
    hide Indexes, Increasing, AllReachable, DistinctConversations;
    left := store;
    ghost var held := turns;
    DistinctIsLength(left, held);
    while DistinctConversations(left) > MAX_REMEMBERED_CONVERSATIONS
      invariant Indexes(left, held) && Increasing(held) && AllReachable(held)
      invariant DistinctConversations(left) == |held| <= |turns| && held == turns[|turns| - |held|..]
      invariant held != turns ==> MAX_REMEMBERED_CONVERSATIONS <= |held|
      decreases |held|
    {
      left := EvictOne(left, held);
      held := held[1..];
      DistinctIsLength(left, held);
    }
    assert held == Newest(turns);
  }

  method RemoveAll(store: Store, keys: seq<string>) returns (left: Store)
    ensures left == store - set k | k in keys
  {
    left := store;
    for i := 0 to |keys|
      invariant left == store - set k | k in keys[..i]
    {
      left := left - {keys[i]};
    }
    assert keys[..|keys|] == keys;
  }

  // ---------------------------------------------------------------------------------------------
  // What every reachable list looks like
  // ---------------------------------------------------------------------------------------------

  ghost predicate WellFormedTalk(talk: Conversation)
  {
    && 1 <= |talk.aliases| <= MAX_CONVERSATION_ALIASES && NoDuplicates(talk.aliases)
    && talk.kept != map[]
    && forall f :: f in talk.kept ==> f in CONVERSATION_SESSION_FIELDS && IsTruthy(talk.kept[f])
  }

  /** No two conversations of the list share an alias. */
  ghost predicate Apart(list: seq<Conversation>)
  {
    forall i, j :: 0 <= i < j < |list| ==> !Touches(list[i], list[j].aliases)
  }

  ghost predicate WellFormed(list: seq<Conversation>)
  {
    && |list| <= MAX_REMEMBERED_CONVERSATIONS
    && (forall t :: t in list ==> WellFormedTalk(t))
    && Apart(list)
  }

  /** Two conversations of a list that share an alias are the same one. */
  lemma SameTalk(list: seq<Conversation>, t: Conversation, u: Conversation, a: string)
    requires Apart(list)
    requires t in list && u in list && a in t.aliases && a in u.aliases
    ensures t == u
  {
    var i, j :| 0 <= i < |list| && 0 <= j < |list| && list[i] == t && list[j] == u;
    assert Touches(list[i], list[j].aliases) && Touches(list[j], list[i].aliases);
  }

  /** Dropping some conversations keeps the others apart. */
  lemma {:induction false} UntouchedIsApart(list: seq<Conversation>, ids: seq<string>)
    requires Apart(list)
    ensures Apart(Untouched(list, ids))
  {
    hide Touches;
    if list != [] {
      UntouchedIsApart(list[1..], ids);
      var rest := Untouched(list[1..], ids);
      forall j | 0 <= j < |rest|
        ensures !Touches(list[0], rest[j].aliases)
      {
        assert rest[j] in list[1..];
      }
    }
  }

  lemma UntouchedKeepsShape(list: seq<Conversation>, ids: seq<string>)
    requires WellFormed(list)
    ensures WellFormed(Untouched(list, ids))
  {
    hide WellFormedTalk, Apart;
    UntouchedIsApart(list, ids);
  }

  lemma {:induction false} MergedIsUnion(list: seq<Conversation>, ids: seq<string>, keys: seq<string>)
    requires WellFormed(list)
    ensures forall k :: k in Merged(list, ids, keys) <==>
      k in keys || exists t :: t in list && Touches(t, ids) && k in t.aliases
    ensures NoDuplicates(keys) ==> NoDuplicates(Merged(list, ids, keys))
    ensures |keys| <= |Merged(list, ids, keys)| && Merged(list, ids, keys)[..|keys|] == keys
    decreases |ids|
  {
    if ids != [] {
      var most, last := ids[..|ids| - 1], ids[|ids| - 1];
      assert ids == most + [last];
      MergedIsUnion(list, most, keys);
      AliasesAreOneGroup(list, last);
      var merged := Merged(list, most, keys);
      assert Absorb(merged, AliasesOf(list, last))[..|merged|][..|keys|] == keys;
      forall t: Conversation
        ensures Touches(t, ids) <==> Touches(t, most) || last in t.aliases
      {
      }
    }
  }

  lemma AliasesAreOneGroup(list: seq<Conversation>, id: string)
    requires WellFormed(list)
    ensures forall k :: k in AliasesOf(list, id) <==> exists t :: t in list && id in t.aliases && k in t.aliases
  {
    if t :| t in list && id in t.aliases {
      forall u | u in list && id in u.aliases
        ensures u == t
      {
        SameTalk(list, t, u, id);
      }
      OnlyOneHolds(list, id, t);
    } else {
      NoneHolds(list, id);
    }
  }

  /** A conversation that shares an id with the merged one is one the call reaches. */
  lemma SharingIsTouching(list: seq<Conversation>, ids: seq<string>, t: Conversation, a: string)
    requires WellFormed(list) && t in list && a in t.aliases
    requires a in Merged(list, Absorb([], ids), Absorb([], ids))
    ensures Touches(t, ids)
  {
    var own := Absorb([], ids);
    MergedIsUnion(list, own, own);
    if a !in own {
      var u :| u in list && Touches(u, own) && a in u.aliases;
      SameTalk(list, t, u, a);
    }
  }

  lemma AppendedIsApart(list: seq<Conversation>, ids: seq<string>, kept: Fields, t: Conversation)
    requires WellFormed(list) && t in Untouched(list, ids)
    ensures !Touches(t, Appended(list, ids, kept).aliases)
  {
    if a :| a in t.aliases && a in Appended(list, ids, kept).aliases {
      SharingIsTouching(list, ids, t, a);
    }
  }

  lemma AppendedIsWellFormed(list: seq<Conversation>, ids: seq<string>, context: Fields)
    requires WellFormed(list) && ids != [] && KeptFields(context) != map[]
    ensures WellFormedTalk(Appended(list, ids, KeptFields(context)))
  {
    var own := Absorb([], ids);
    MergedIsUnion(list, own, own);
    assert ids[0] in own;
  }

  lemma AppendKeepsShape(list: seq<Conversation>, talk: Conversation)
    requires WellFormed(list) && WellFormedTalk(talk)
    requires forall t :: t in list ==> !Touches(t, talk.aliases)
    ensures WellFormed(DropOldest(list + [talk]))
  {
    hide WellFormedTalk, Touches;
    var longer := list + [talk];
    assert Apart(longer);
    assert longer == [longer[0]] + longer[1..];
  }

  /** One call keeps the shape: at most 32 disjoint conversations of 1 to 8 ids, each with state to carry. */
  lemma RememberedKeepsShape(list: seq<Conversation>, ids: seq<string>, context: Fields)
    requires WellFormed(list)
    ensures WellFormed(Remembered(list, ids, KeptFields(context)))
  {
    var kept := KeptFields(context);
    UntouchedKeepsShape(list, ids);
    if ids != [] && kept != map[] {
      forall t | t in Untouched(list, ids)
        ensures !Touches(t, Appended(list, ids, kept).aliases)
      {
        AppendedIsApart(list, ids, kept, t);
      }
      AppendedIsWellFormed(list, ids, context);
      AppendKeepsShape(Untouched(list, ids), Appended(list, ids, kept));
    }
  }

  /** What a turn's end hands the client: the ids that reach the conversation, and the hub's context. */
  datatype Ending = Ending(ids: seq<string>, context: Fields)

  ghost function After(endings: seq<Ending>): seq<Conversation>
  {
    if endings == [] then []
    else
      var last := endings[|endings| - 1];
      Remembered(After(endings[..|endings| - 1]), last.ids, KeptFields(last.context))
  }

  lemma {:induction false} EveryRunIsWellFormed(endings: seq<Ending>)
    ensures WellFormed(After(endings)) && |After(endings)| <= 32
  {
    if endings != [] {
      var last := endings[|endings| - 1];
      EveryRunIsWellFormed(endings[..|endings| - 1]);
      RememberedKeepsShape(After(endings[..|endings| - 1]), last.ids, last.context);
    }
  }

  // ---------------------------------------------------------------------------------------------
  // What one call changes for each id
  // ---------------------------------------------------------------------------------------------

  /** The ids one call takes over: its own, and those of every conversation they reach. */
  ghost predicate TakesOver(list: seq<Conversation>, ids: seq<string>, id: string)
  {
    id in ids || exists t :: t in list && Touches(t, ids) && id in t.aliases
  }

  lemma FindHeld(list: seq<Conversation>, id: string, talk: Conversation)
    requires Apart(list)
    requires talk in list && id in talk.aliases
    ensures Find(list, id) == Some(talk.kept)
  {
    forall u | u in list && id in u.aliases
      ensures u == talk
    {
      SameTalk(list, talk, u, id);
    }
    OnlyOneHolds(list, id, talk);
  }

  lemma HeldIsTakenOver(list: seq<Conversation>, ids: seq<string>, id: string, t: Conversation)
    requires WellFormed(list) && t in list && id in t.aliases
    ensures TakesOver(list, ids, id) <==> Touches(t, ids)
  {
    if u :| u in list && Touches(u, ids) && id in u.aliases {
      SameTalk(list, t, u, id);
    }
  }

  lemma FindUntouched(list: seq<Conversation>, ids: seq<string>, id: string)
    requires WellFormed(list)
    ensures Find(Untouched(list, ids), id) == if TakesOver(list, ids, id) then None else Find(list, id)
  {
    var rest := Untouched(list, ids);
    if t :| t in list && id in t.aliases {
      FindHeld(list, id, t);
      HeldIsTakenOver(list, ids, id, t);
      if Touches(t, ids) {
        forall u | u in rest
          ensures id !in u.aliases
        {
          if id in u.aliases {
            SameTalk(list, t, u, id);
          }
        }
        NoneHolds(rest, id);
      } else {
        UntouchedKeepsShape(list, ids);
        FindHeld(rest, id, t);
      }
    } else {
      NoneHolds(list, id);
      NoneHolds(rest, id);
    }
  }

  /** A turn that ends with nothing active forgets its conversation under every alias, and no other. */
  lemma NothingActiveForgets(list: seq<Conversation>, ids: seq<string>, id: string)
    requires WellFormed(list) && ids != []
    ensures Find(Remembered(list, ids, map[]), id) == if TakesOver(list, ids, id) then None else Find(list, id)
  {
    FindUntouched(list, ids, id);
  }

  /** The ids the merged conversation answers to: this turn's first, the inherited after them, at most 8. */
  lemma MergedAliases(list: seq<Conversation>, ids: seq<string>, kept: Fields)
    requires WellFormed(list)
    ensures forall id :: id in Merged(list, Absorb([], ids), Absorb([], ids)) <==> TakesOver(list, ids, id)
    ensures |Absorb([], ids)| <= MAX_CONVERSATION_ALIASES ==>
              forall id :: id in ids ==> id in Appended(list, ids, kept).aliases
    ensures forall id :: id in Appended(list, ids, kept).aliases ==> TakesOver(list, ids, id)
  {
    hide NoDuplicates, WellFormed;
    var own := Absorb([], ids);
    var merged := Merged(list, own, own);
    MergedIsUnion(list, own, own);
    forall t: Conversation
      ensures Touches(t, own) <==> Touches(t, ids)
    {
    }
    if |own| <= MAX_CONVERSATION_ALIASES {
      assert merged[..|own|] == merged[..Min(|merged|, MAX_CONVERSATION_ALIASES)][..|own|];
    }
  }

  /**
   * After a turn that left state, an id it took over finds that state when it is among the aliases kept
   * and nothing otherwise; every other id finds what it found, unless its conversation was the oldest of 33.
   */
  lemma RememberedFinds(list: seq<Conversation>, ids: seq<string>, context: Fields, id: string)
    requires WellFormed(list) && ids != [] && KeptFields(context) != map[]
    ensures var kept, rest := KeptFields(context), Untouched(list, ids);
      Find(Remembered(list, ids, kept), id) ==
        if id in Appended(list, ids, kept).aliases then Some(kept)
        else if TakesOver(list, ids, id) then None
        else if |rest| == 32 && id in rest[0].aliases then None
        else Find(list, id)
  {
    var kept := KeptFields(context);
    RememberedKeepsShape(list, ids, context);
    UntouchedKeepsShape(list, ids);
    MergedAliases(list, ids, kept);
    FindUntouched(list, ids, id);
    FindAppended(Untouched(list, ids), Appended(list, ids, kept), id);
  }

  lemma FindAppended(rest: seq<Conversation>, talk: Conversation, id: string)
    requires WellFormed(rest) && WellFormed(DropOldest(rest + [talk]))
    ensures Find(DropOldest(rest + [talk]), id) ==
      if id in talk.aliases then Some(talk.kept)
      else if |rest| == MAX_REMEMBERED_CONVERSATIONS && id in rest[0].aliases then None
      else Find(rest, id)
  {
    var after := DropOldest(rest + [talk]);
    if id in talk.aliases {
      assert after[|after| - 1] == talk;
      FindHeld(after, id, talk);
    } else if |rest| == MAX_REMEMBERED_CONVERSATIONS {
      assert after == rest[1..] + [talk];
      FindBefore(rest[1..], talk, id);
      if id in rest[0].aliases {
        NotInOthers(rest, id);
        NoneHolds(rest[1..], id);
      }
    } else {
      FindBefore(rest, talk, id);
    }
  }

  lemma NotInOthers(list: seq<Conversation>, id: string)
    requires WellFormed(list) && list != [] && id in list[0].aliases
    ensures forall u :: u in list[1..] ==> id !in u.aliases
  {
    forall u | u in list[1..]
      ensures id !in u.aliases
    {
      var j :| 1 <= j < |list| && list[j] == u;
      assert !Touches(list[0], list[j].aliases);
    }
  }

  lemma {:induction false} FindBefore(list: seq<Conversation>, talk: Conversation, id: string)
    requires id !in talk.aliases
    ensures Find(list + [talk], id) == Find(list, id)
  {
    if list != [] {
      FindBefore(list[1..], talk, id);
      assert (list + [talk])[1..] == list[1..] + [talk];
    }
  }

  // ---------------------------------------------------------------------------------------------
  // The client's memory of its conversations
  // ---------------------------------------------------------------------------------------------

  /** The session a turn brings itself. */
  function OwnSession(context: Option<Fields>): Fields
  {
    if context.Some? && "session" in context.value && context.value["session"].Object?
    then context.value["session"].fields else map[]
  }

  /** The turn's context with the conversation's state added: all of its own stays as it is. */
  ghost predicate ContinuesFrom(kept: Fields, context: Option<Fields>, next: Fields)
  {
    && (forall key :: key != "session" ==>
          (key in next <==> context.Some? && key in context.value)
          && (key in next ==> next[key] == context.value[key]))
    && "session" in next && next["session"].Object?
    && forall f ::
         && (f in next["session"].fields <==> f in OwnSession(context) || f in kept)
         && (f in next["session"].fields ==>
               next["session"].fields[f] == if f in OwnSession(context) then OwnSession(context)[f] else kept[f])
  }

  /** Every value but nothing, false, zero and what is empty. */
  predicate IsSomething(value: Json)
  {
    && value != Null && value != Bool(false) && value != String("") && value != Array([]) && value != Object(map[])
    && (value.Number? ==> !IsZero(value.token))
  }

  lemma TruthyIsSomething(value: Json)
    ensures IsTruthy(value) <==> IsSomething(value)
  {}

  ghost predicate IsListed(field: string)
  {
    field in {"converse_handlers", "active_handlers", "active_skills", "context", "utterance_states", "response_mode"}
  }

  lemma ListedAreTheSessionFields(field: string)
    ensures IsListed(field) <==> field in CONVERSATION_SESSION_FIELDS
  {}

  /** What a turn leaves behind under a field. */
  ghost predicate Leaves(context: Fields, field: string)
  {
    && IsListed(field) && field in OwnSession(Some(context)) && IsSomething(OwnSession(Some(context))[field])
  }

  /**
   * From turn to turn: after a turn under at most 8 ids, the next one under any of them gets exactly the listed
   * fields that the turn left with something in them and that it does not set itself, with the values they had. When
   * the turn left nothing there is no conversation to go on with.
   */
  lemma NextTurnGetsWhatWasLeft(list: seq<Conversation>, ids: seq<string>, context: Fields, id: string,
                                turn: Option<Fields>, next: Fields)
    requires WellFormed(list) && id in ids && |ids| <= 8
    ensures var found := Find(Remembered(list, ids, KeptFields(context)), id);
      && (found.Some? <==> exists f :: Leaves(context, f))
      && (found.Some? && ContinuesFrom(found.value, turn, next) ==>
            forall f ::
              && (f in next["session"].fields <==> f in OwnSession(turn) || Leaves(context, f))
              && (f in next["session"].fields && f !in OwnSession(turn) ==>
                    next["session"].fields[f] == OwnSession(Some(context))[f]))
  {
    hide IsTruthy, IsSomething, IsListed, WellFormed, CONVERSATION_SESSION_FIELDS, Remembered, TakesOver, Appended;
    var kept := KeptFields(context);
    forall f ensures f in kept <==> Leaves(context, f) {
      ListedAreTheSessionFields(f);
      if f in OwnSession(Some(context)) {
        TruthyIsSomething(OwnSession(Some(context))[f]);
      }
    }
    OwnIdsAreTakenOver(list, ids, id);
    if kept == map[] {
      NothingActiveForgets(list, ids, id);
    } else {
      var f :| f in kept;
      OwnIdsAreKept(list, ids, id, kept);
      RememberedFinds(list, ids, context, id);
    }
  }

  lemma OwnIdsAreTakenOver(list: seq<Conversation>, ids: seq<string>, id: string)
    requires id in ids
    ensures TakesOver(list, ids, id)
  {}

  lemma OwnIdsAreKept(list: seq<Conversation>, ids: seq<string>, id: string, kept: Fields)
    requires WellFormed(list) && id in ids && |ids| <= MAX_CONVERSATION_ALIASES
    ensures id in Appended(list, ids, kept).aliases
  {
    hide WellFormed, Appended;
    AbsorbedAreFewer([], ids);
    MergedAliases(list, ids, kept);
  }

  lemma {:induction false} AbsorbedAreFewer(keys: seq<string>, more: seq<string>)
    ensures |Absorb(keys, more)| <= |keys| + |more|
    decreases |more|
  {
    if more != [] {
      AbsorbedAreFewer(keys, more[..|more| - 1]);
    }
  }

  method Dedupe(ids: seq<string>) returns (keys: seq<string>)
    ensures keys == Absorb([], ids) && NoDuplicates(keys)
    ensures keys == [] <==> ids == []
  {
    keys := [];
    for i := 0 to |ids|
      invariant keys == Absorb([], ids[..i])
    {
      assert ids[..i + 1][..i] == ids[..i];
      if ids[i] !in keys {
        keys := keys + [ids[i]];
      }
    }
    assert ids[..|ids|] == ids;
    assert ids != [] ==> ids[0] in keys;
  }

  lemma {:induction false} SameFilter(turns: seq<Entry>, keys: seq<string>, ids: seq<string>)
    requires forall k :: k in keys <==> k in ids
    ensures StillThere(turns, keys) == StillThere(turns, ids)
  {
    if turns != [] {
      SameFilter(turns[1..], keys, ids);
      TouchesMore(turns[0].talk, keys, ids);
      TouchesMore(turns[0].talk, ids, keys);
    }
  }

  lemma LeftHoldsNoKey(store: Store, keys: seq<string>)
    requires Coherent(store)
    ensures Left(store, keys) - (set k | k in keys) == Left(store, keys)
  {
  }

  lemma LeftIndexesStillThere(store: Store, turns: seq<Entry>, ids: seq<string>)
    requires Indexes(store, turns)
    ensures Indexes(Left(store, Absorb([], ids)), StillThere(turns, ids))
  {
    SameFilter(turns, Absorb([], ids), ids);
    var rest := StillThere(turns, Absorb([], ids));
    LeftIndexes(store, turns, Absorb([], ids), rest);
  }

  /** What the worklist leaves is the index of the conversations the ids do not reach. */
  lemma TakenOver(store: Store, turns: seq<Entry>, ids: seq<string>)
    requires Indexes(store, turns) && Increasing(turns)
    ensures Coherent(store)
    ensures Indexes(Left(store, Absorb([], ids)), StillThere(turns, ids)) && Increasing(StillThere(turns, ids))
    ensures Joined(store, Absorb([], ids), Absorb([], ids)) == Merged(Talks(turns), Absorb([], ids), Absorb([], ids))
    ensures Talks(StillThere(turns, ids)) == Untouched(Talks(turns), ids)
  {
    IndexIsCoherent(store, turns);
    JoinedIsMerged(store, turns, Absorb([], ids), Absorb([], ids));
    LeftIndexesStillThere(store, turns, ids);
    StillThereIncreases(turns, ids);
    StillThereIsUntouched(turns, ids);
  }

  /** Filing the merged conversation under a fresh stamp keeps the index. */
  lemma AppendedIsIndexed(left: Store, still: seq<Entry>, list: seq<Conversation>, ids: seq<string>, entry: Entry)
    requires WellFormed(list) && Talks(still) == Untouched(list, ids)
    requires entry.talk == Appended(list, ids, entry.talk.kept)
    requires Indexes(left, still) && Increasing(still)
    requires forall t :: t in still ==> t.inserted < entry.inserted
    requires entry.talk.aliases != []
    ensures Indexes(left + Filed(entry.talk.aliases, entry), still + [entry]) && Increasing(still + [entry])
    ensures AllReachable(still + [entry])
  {
    UntouchedKeepsShape(list, ids);
    forall t | t in still
      ensures !Touches(t.talk, entry.talk.aliases) && t.talk.aliases != []
    {
      var i :| 0 <= i < |still| && still[i] == t;
      assert t.talk == Talks(still)[i];
      AppendedIsApart(list, ids, entry.talk.kept, t.talk);
    }
    InsertedIndexes(left, still, entry);
  }

  lemma OldestIsDropped(still: seq<Entry>, left: seq<Conversation>, entry: Entry)
    requires Talks(still) == left && |left| <= MAX_REMEMBERED_CONVERSATIONS
    ensures Talks(Newest(still + [entry])) == DropOldest(left + [entry.talk])
    ensures forall t :: t in Newest(still + [entry]) ==> t in still || t == entry
  {
    assert Newest(still + [entry]) ==
           if |still| == MAX_REMEMBERED_CONVERSATIONS then (still + [entry])[1..] else still + [entry];
  }

  /** Files the merged conversation, then evicts down to the bound. */
  method FileAndEvict(left: Store, ghost still: seq<Entry>, ghost list: seq<Conversation>, ghost ids: seq<string>,
                      entry: Entry)
    returns (store: Store)
    requires WellFormed(list) && Talks(still) == Untouched(list, ids)
    requires entry.talk == Appended(list, ids, entry.talk.kept)
    requires Indexes(left, still) && Increasing(still) && entry.talk.aliases != []
    requires forall t :: t in still ==> t.inserted < entry.inserted
    ensures var turns := Newest(still + [entry]);
      && Indexes(store, turns) && Increasing(turns) && (forall t :: t in turns ==> t.inserted <= entry.inserted)
      && Talks(turns) == DropOldest(Untouched(list, ids) + [entry.talk])
  {
    hide Indexes, Increasing, AllReachable, WellFormedTalk, Appended, Filed, Untouched, DropOldest, Talks, Newest;
    AppendedIsIndexed(left, still, list, ids, entry);
    store := FileUnder(left, entry.talk.aliases, entry);
    store := EvictOldest(store, still + [entry]);
    OldestIsDropped(still, Untouched(list, ids), entry);
  }

  class Memory {
    var conversations: Store
    var sequence: nat
    ghost var turns: seq<Entry>

    ghost predicate Valid()
      reads this
    {
      && Indexes(conversations, turns) && Increasing(turns)
      && (forall t :: t in turns ==> t.inserted < sequence)
      && WellFormed(Talks(turns))
    }

    /**
     * Between any two calls each key lies in its own group of at most 8 different ids, every sibling is there with an
     * equal entry, groups with different stamps share no id, and what is kept is something, and truthy.
     */
    lemma GroupsAreWhole(key: string, other: string)
      requires Valid() && key in conversations && other in conversations
      ensures var group := conversations[key].talk.aliases;
        && key in group && |group| <= 8 && NoDuplicates(group)
        && (forall sibling <- group :: sibling in conversations && conversations[sibling] == conversations[key])
      ensures conversations[key].inserted != conversations[other].inserted ==>
                !Touches(conversations[key].talk, conversations[other].talk.aliases)
      ensures var kept := conversations[key].talk.kept;
        kept != map[] && forall f <- kept :: f in CONVERSATION_SESSION_FIELDS && IsTruthy(kept[f])
    {
      hide CONVERSATION_SESSION_FIELDS, IsTruthy, Apart, NoDuplicates;
      IndexIsCoherent(conversations, turns);
      var i :| 0 <= i < |turns| && turns[i] == conversations[key];
      assert Talks(turns)[i] == conversations[key].talk && Talks(turns)[i] in Talks(turns);
    }

    /** The conversations held, oldest first. */
    ghost function Model(): seq<Conversation>
      reads this
    {
      Talks(turns)
    }

    constructor ()
      ensures Valid() && Model() == []
    {
      conversations, sequence, turns := map[], 0, [];
    }

    method RememberConversation(sessionIds: seq<string>, context: Fields)
      requires Valid()
      modifies this
      ensures Valid()
      ensures Model() == Remembered(old(Model()), sessionIds, KeptFields(context))
      ensures sequence == old(sequence) + if sessionIds != [] && KeptFields(context) != map[] then 1 else 0
    {
      hide Indexes, WellFormed, Increasing, StillThere, Untouched, Absorb, Merged, NoDuplicates, Joined, Left,
           Coherent, KeptFields;
      var kept := CollectKept(context);
      var keys := Dedupe(sessionIds);
      if keys == [] {
        return;
      }
      ghost var list, still := Talks(turns), StillThere(turns, sessionIds);
      RememberedKeepsShape(list, sessionIds, context);
      TakenOver(conversations, turns, sessionIds);
      ghost var before := conversations;
      conversations, keys := TakeOver(conversations, keys);
      if kept == map[] {
        LeftHoldsNoKey(before, keys);
        conversations := RemoveAll(conversations, keys);
        turns := still;
        assert Talks(turns) == Remembered(list, sessionIds, kept);
        return;
      }
      if |keys| > MAX_CONVERSATION_ALIASES {
        keys := keys[..MAX_CONVERSATION_ALIASES];
      }
      var entry := Entry(sequence, Conversation(keys, kept));
      sequence := sequence + 1;
      conversations := FileAndEvict(conversations, still, list, sessionIds, entry);
      turns := Newest(still + [entry]);
      assert Talks(turns) == Remembered(list, sessionIds, kept);
    }

    method ContinueConversation(context: Option<Fields>, sessionId: string) returns (next: Option<Fields>)
      requires Valid()
      ensures next.Some? <==> Find(Model(), sessionId).Some?
      ensures next.Some? ==> ContinuesFrom(Find(Model(), sessionId).value, context, next.value)
    {
      LookupFindsTheSame(conversations, turns, sessionId);
      if sessionId !in conversations {
        return None;
      }
      var kept := conversations[sessionId].talk.kept;
      KeptIsCarried(sessionId);
      var base: Fields := if context.Some? then context.value else map[];
      var carried := CarryConversation(Some(kept), ObjectAt(base, "session"));
      next := Some(base["session" := Object(carried)]);
    }

    /** All that is kept passes the carry filter. */
    lemma KeptIsCarried(sessionId: string)
      requires Valid() && sessionId in conversations
      ensures var kept := conversations[sessionId].talk.kept;
        forall f <- kept :: f in CONVERSATION_SESSION_FIELDS && IsCarried(kept[f])
    {
      hide CONVERSATION_SESSION_FIELDS, Apart, NoDuplicates;
      var i :| 0 <= i < |turns| && turns[i] == conversations[sessionId];
      assert Talks(turns)[i] == conversations[sessionId].talk && Talks(turns)[i] in Talks(turns);
    }
  }
}
