/**
 The strict field walk (internal/api/request_decode.go): a type-directed walk over a token
 stream, against a recursive check on the JSON tree.  The text was decoded once before, so
 the stream is the tokens of a tree followed by whatever comes after it.
 */
module StrictJson {
  import opened Wrappers
  import opened FoldKey

  datatype Json = JNull | JAtom | JText(text: Name) | JArray(items: Items) | JObject(members: Members)

  datatype Items = NoItems | Item(value: Json, more: Items)

  datatype Members = NoMembers | Member(name: Name, value: Json, more: Members)

  datatype Token = ObjectOpen | ObjectClose | ArrayOpen | ArrayClose | Text(name: Name) | Atom | Null

  /** What reflection tells of a Go type; `custom` says that it or its pointer unmarshals itself. */
  datatype GoType =
    | Unknown
    | Pointer(elem: GoType)
    | Struct(id: nat, custom: bool)
    | Map(elem: GoType, custom: bool)
    | Slice(elem: GoType, custom: bool)
    | Other(custom: bool)

  type Fields = map<Name, GoType>
  type Schema = nat -> Fields

  // ---------------------------------------------------------------------------
  // Trees and their tokens
  // ---------------------------------------------------------------------------

  function Tokens(v: Json): (ts: seq<Token>)
    ensures ts != [] && ts[0] == Head(v)
  {
    match v
    case JNull => [Null]
    case JAtom => [Atom]
    case JText(text) => [Text(text)]
    case JArray(items) => [ArrayOpen] + ItemTokens(items) + [ArrayClose]
    case JObject(members) => [ObjectOpen] + MemberTokens(members) + [ObjectClose]
  }

  function ItemTokens(items: Items): seq<Token> {
    match items
    case NoItems => []
    case Item(value, more) => Tokens(value) + ItemTokens(more)
  }

  function MemberTokens(members: Members): seq<Token> {
    match members
    case NoMembers => []
    case Member(name, value, more) => [Text(name)] + Tokens(value) + MemberTokens(more)
  }

  function Head(v: Json): Token {
    match v
    case JNull => Null
    case JAtom => Atom
    case JText(text) => Text(text)
    case JArray(_) => ArrayOpen
    case JObject(_) => ObjectOpen
  }

  /** What follows a value's first token. */
  function Tail(v: Json): seq<Token> {
    match v
    case JArray(items) => ItemTokens(items) + [ArrayClose]
    case JObject(members) => MemberTokens(members) + [ObjectClose]
    case _ => []
  }

  lemma HeadAndTail(v: Json, rest: seq<Token>)
    ensures (Tokens(v) + rest)[0] == Head(v) && (Tokens(v) + rest)[1..] == Tail(v) + rest
  {
    assert Tokens(v) == [Head(v)] + Tail(v);
  }

  function Size(v: Json): nat {
    match v
    case JArray(items) => 1 + ItemsSize(items)
    case JObject(members) => 1 + MembersSize(members)
    case _ => 1
  }

  function ItemsSize(items: Items): nat {
    match items
    case NoItems => 0
    case Item(value, more) => 1 + Size(value) + ItemsSize(more)
  }

  function MembersSize(members: Members): nat {
    match members
    case NoMembers => 0
    case Member(_, value, more) => 1 + Size(value) + MembersSize(more)
  }

  // ---------------------------------------------------------------------------
  // The reference check on the tree
  // ---------------------------------------------------------------------------

  function Strip(t: GoType): GoType {
    if t.Pointer? then Strip(t.elem) else t
  }

  function Pointers(n: nat, t: GoType): GoType {
    if n == 0 then t else Pointer(Pointers(n - 1, t))
  }

  /** Stripping takes off all pointers. */
  lemma {:induction false} StripIs(t: GoType) returns (n: nat)
    ensures t == Pointers(n, Strip(t)) && !Strip(t).Pointer?
  {
    n := 0;
    if t.Pointer? {
      var rest := StripIs(t.elem);
      n := rest + 1;
    }
  }

  predicate Custom(t: GoType) {
    !t.Unknown? && !t.Pointer? && t.custom
  }

  function Names(members: Members): seq<Name> {
    match members
    case NoMembers => []
    case Member(name, _, more) => [name] + Names(more)
  }

  ghost predicate FoldDistinct(f: Fold, names: seq<Name>) {
    forall i, j :: 0 <= i < j < |names| ==> !FoldEqual(f, names[i], names[j])
  }

  /** A name is a field's own spelling, or no field's at all. */
  ghost predicate Canonical(f: Fold, fields: Fields, name: Name) {
    name in fields || forall field :: field in fields ==> !FoldEqual(f, field, name)
  }

  ghost predicate AllCanonical(f: Fold, fields: Fields, names: seq<Name>) {
    forall i :: 0 <= i < |names| ==> Canonical(f, fields, names[i])
  }

  /**
   Every object that the schema owns has fold-distinct names in canonical spelling; maps and custom types are
   free.
   */
  ghost predicate Accepts(f: Fold, schema: Schema, v: Json, t: GoType)
    decreases v
  {
    t.Unknown? || v.JNull? || Custom(Strip(t))
    || match (v, Strip(t))
       case (JObject(members), Struct(id, _)) =>
         FoldDistinct(f, Names(members)) && AllCanonical(f, schema(id), Names(members)) && FieldsAccept(f, schema, schema(id), members)
       case (JObject(members), Map(elem, _)) => ValuesAccept(f, schema, elem, members)
       case (JArray(items), Slice(elem, _)) => ItemsAccept(f, schema, elem, items)
       case _ => true
  }

  ghost predicate FieldsAccept(f: Fold, schema: Schema, fields: Fields, members: Members)
    decreases members
  {
    match members
    case NoMembers => true
    case Member(name, value, more) =>
      (name in fields ==> Accepts(f, schema, value, fields[name])) && FieldsAccept(f, schema, fields, more)
  }

  ghost predicate ValuesAccept(f: Fold, schema: Schema, elem: GoType, members: Members)
    decreases members
  {
    match members
    case NoMembers => true
    case Member(_, value, more) => Accepts(f, schema, value, elem) && ValuesAccept(f, schema, elem, more)
  }

  ghost predicate ItemsAccept(f: Fold, schema: Schema, elem: GoType, items: Items)
    decreases items
  {
    match items
    case NoItems => true
    case Item(value, more) => Accepts(f, schema, value, elem) && ItemsAccept(f, schema, elem, more)
  }

  // ---------------------------------------------------------------------------
  // What the check means: one condition on every object that the schema owns
  // ---------------------------------------------------------------------------

  /**
   Walking v as a t, the schema comes upon the members `ms` of an object that it reads with
   the fields of struct `id`: the value itself, or one inside a field, a map or a list,
   but not behind a null, an unknown type, a custom one, or a name that is no field.
   */
  predicate Owns(schema: Schema, v: Json, t: GoType, ms: Members, id: nat)
    decreases v
  {
    match (v, Strip(t))
    case (JObject(members), Struct(i, custom)) => !custom && ((ms == members && id == i) || FieldsOwn(schema, schema(i), members, ms, id))
    case (JObject(members), Map(elem, custom)) => !custom && ValuesOwn(schema, elem, members, ms, id)
    case (JArray(items), Slice(elem, custom)) => !custom && ItemsOwn(schema, elem, items, ms, id)
    case _ => false
  }

  predicate FieldsOwn(schema: Schema, fields: Fields, members: Members, ms: Members, id: nat)
    decreases members
  {
    members.Member?
    && ((members.name in fields && Owns(schema, members.value, fields[members.name], ms, id)) || FieldsOwn(schema, fields, members.more, ms, id))
  }

  predicate ValuesOwn(schema: Schema, elem: GoType, members: Members, ms: Members, id: nat)
    decreases members
  {
    members.Member? && (Owns(schema, members.value, elem, ms, id) || ValuesOwn(schema, elem, members.more, ms, id))
  }

  predicate ItemsOwn(schema: Schema, elem: GoType, items: Items, ms: Members, id: nat)
    decreases items
  {
    items.Item? && (Owns(schema, items.value, elem, ms, id) || ItemsOwn(schema, elem, items.more, ms, id))
  }

  /** Its names are fold-distinct, and each is a field's own spelling or no field's. */
  ghost predicate Clean(f: Fold, schema: Schema, ms: Members, id: nat) {
    FoldDistinct(f, Names(ms)) && AllCanonical(f, schema(id), Names(ms))
  }

  /** The check accepts exactly when every object that the schema owns is clean, however deep. */
  lemma {:induction false} AcceptsIff(f: Fold, schema: Schema, v: Json, t: GoType)
    ensures Accepts(f, schema, v, t) <==> forall ms, id :: Owns(schema, v, t, ms, id) ==> Clean(f, schema, ms, id)
    decreases v
  {
    if !t.Unknown? && !v.JNull? && !Custom(Strip(t)) {
      match (v, Strip(t))
      case (JObject(members), Struct(i, _)) =>
        FieldsAcceptIff(f, schema, schema(i), members);
        StructOwns(schema, v, t, members, i);
        assert Accepts(f, schema, v, t) <==> Clean(f, schema, members, i) && FieldsAccept(f, schema, schema(i), members);
        hide Accepts, Owns, Clean, FieldsAccept, FieldsOwn;
        if forall ms, id :: Owns(schema, v, t, ms, id) ==> Clean(f, schema, ms, id) {
          forall ms, id | FieldsOwn(schema, schema(i), members, ms, id)
            ensures Clean(f, schema, ms, id)
          {
            assert Owns(schema, v, t, ms, id);
          }
        }
      case (JObject(members), Map(elem, _)) => ValuesAcceptIff(f, schema, elem, members);
      case (JArray(items), Slice(elem, _)) => ItemsAcceptIff(f, schema, elem, items);
      case _ =>
    }
  }

  lemma StructOwns(schema: Schema, v: Json, t: GoType, members: Members, i: nat)
    requires !t.Unknown? && !Custom(Strip(t)) && v == JObject(members) && Strip(t).Struct? && Strip(t).id == i
    ensures Owns(schema, v, t, members, i)
    ensures forall ms, id :: Owns(schema, v, t, ms, id) <==> (ms == members && id == i) || FieldsOwn(schema, schema(i), members, ms, id)
  {
  }

  lemma {:induction false} FieldsAcceptIff(f: Fold, schema: Schema, fields: Fields, members: Members)
    ensures FieldsAccept(f, schema, fields, members) <==>
              forall ms, id :: FieldsOwn(schema, fields, members, ms, id) ==> Clean(f, schema, ms, id)
    decreases members
  {
    hide Accepts, Owns, Clean;
    if members.Member? {
      if members.name in fields {
        AcceptsIff(f, schema, members.value, fields[members.name]);
      }
      FieldsAcceptIff(f, schema, fields, members.more);
    }
  }

  lemma {:induction false} ValuesAcceptIff(f: Fold, schema: Schema, elem: GoType, members: Members)
    ensures ValuesAccept(f, schema, elem, members) <==>
              forall ms, id :: ValuesOwn(schema, elem, members, ms, id) ==> Clean(f, schema, ms, id)
    decreases members
  {
    hide Accepts, Owns, Clean;
    if members.Member? {
      AcceptsIff(f, schema, members.value, elem);
      ValuesAcceptIff(f, schema, elem, members.more);
    }
  }

  lemma {:induction false} ItemsAcceptIff(f: Fold, schema: Schema, elem: GoType, items: Items)
    ensures ItemsAccept(f, schema, elem, items) <==>
              forall ms, id :: ItemsOwn(schema, elem, items, ms, id) ==> Clean(f, schema, ms, id)
    decreases items
  {
    hide Accepts, Owns, Clean;
    if items.Item? {
      AcceptsIff(f, schema, items.value, elem);
      ItemsAcceptIff(f, schema, elem, items.more);
    }
  }

  // ---------------------------------------------------------------------------
  // The walk
  // ---------------------------------------------------------------------------

  predicate Closer(t: Token) {
    t.ObjectClose? || t.ArrayClose?
  }

  class Decoder {
    const fold: Fold
    const schema: Schema
    var unread: seq<Token>

    /** decoder.Token. */
    method Next() returns (t: Token)
      requires unread != []
      modifies this
      ensures t == old(unread)[0] && unread == old(unread)[1..]
    {
      t := unread[0];
      unread := unread[1..];
    }

    /** decoder.More. */
    predicate More()
      reads this
    {
      unread != [] && !Closer(unread[0])
    }

    method SkipValue(ghost v: Json, ghost rest: seq<Token>)
      requires unread == Tokens(v) + rest
      modifies this
      ensures unread == rest
      decreases Size(v), 1
    {
      HeadAndTail(v, rest);
      var token := Next();
      SkipToken(token, v, rest);
    }

    /** Skips the rest of exactly one balanced value. */
    method SkipToken(token: Token, ghost v: Json, ghost rest: seq<Token>)
      requires token == Head(v) && unread == Tail(v) + rest
      modifies this
      ensures unread == rest
      decreases Size(v), 0
    {
      if !token.ObjectOpen? && !token.ArrayOpen? {
        assert [] + rest == rest;
        return;
      }
      if token.ObjectOpen? {
        SkipMembers(v.members, rest);
      } else {
        SkipItems(v.items, rest);
      }
    }

    method SkipMembers(ghost members: Members, ghost rest: seq<Token>)
      requires unread == MemberTokens(members) + [ObjectClose] + rest
      modifies this
      ensures unread == rest
      decreases MembersSize(members), 2
    {
      ghost var left := members;
      AfterMembers(left, rest);
      while More()
        invariant MembersSize(left) <= MembersSize(members)
        invariant unread == MemberTokens(left) + [ObjectClose] + rest
        invariant More() <==> left.Member?
        decreases MembersSize(left)
      {
        MemberFirst(left, rest);
        var _ := Next();
        SkipValue(left.value, MemberTokens(left.more) + [ObjectClose] + rest);
        left := left.more;
        AfterMembers(left, rest);
      }
      var _ := Next();
    }

    method SkipItems(ghost items: Items, ghost rest: seq<Token>)
      requires unread == ItemTokens(items) + [ArrayClose] + rest
      modifies this
      ensures unread == rest
      decreases ItemsSize(items), 2
    {
      ghost var left := items;
      AfterItems(left, rest);
      while More()
        invariant ItemsSize(left) <= ItemsSize(items)
        invariant unread == ItemTokens(left) + [ArrayClose] + rest
        invariant More() <==> left.Item?
        decreases ItemsSize(left)
      {
        ItemFirst(left, rest);
        SkipValue(left.value, ItemTokens(left.more) + [ArrayClose] + rest);
        left := left.more;
        AfterItems(left, rest);
      }
      var _ := Next();
    }

    /** canonicalJSONFieldName; strings.EqualFold is taken as fold-equality, decided by the keys. */
    method CanonicalName(fields: Fields, name: Name) returns (canonical: Option<Name>)
      requires FiniteOrbits(fold)
      ensures canonical.Some? ==> canonical.value in fields && FoldEqual(fold, canonical.value, name)
      ensures canonical.None? ==> forall field :: field in fields ==> !FoldEqual(fold, field, name)
    {
      var key := FieldFoldKey(fold, name);
      var rest := fields.Keys;
      while rest != {}
        invariant rest <= fields.Keys
        invariant forall field :: field in fields && field !in rest ==> !FoldEqual(fold, field, name)
        decreases |rest|
      {
        var field :| field in rest;
        var fieldKey := FieldFoldKey(fold, field);
        KeyIffFoldEqual(fold, field, name);
        if fieldKey == key {
          return Some(field);
        }
        rest := rest - {field};
      }
      return None;
    }

    method WalkValue(t: GoType, ghost v: Json, ghost rest: seq<Token>) returns (accepted: bool)
      requires FiniteOrbits(fold) && unread == Tokens(v) + rest
      modifies this
      ensures accepted == Accepts(fold, schema, v, t)
      ensures accepted ==> unread == rest
      decreases Size(v), 1
    {
      HeadAndTail(v, rest);
      var token := Next();
      accepted := WalkToken(token, t, v, rest);
    }

    /** walkStrictJSONToken: accepts as the tree check does, and then has read exactly this value. */
    method WalkToken(token: Token, t: GoType, ghost v: Json, ghost rest: seq<Token>) returns (accepted: bool)
      requires FiniteOrbits(fold) && token == Head(v) && unread == Tail(v) + rest
      modifies this
      ensures accepted == Accepts(fold, schema, v, t)
      ensures accepted ==> unread == rest
      decreases Size(v), 0
    {
      if t.Unknown? {
        SkipToken(token, v, rest);
        return true;
      }
      var u := t;
      while u.Pointer?
        invariant Strip(u) == Strip(t)
        decreases u
      {
        u := u.elem;
      }
      if token.Null? || Custom(u) {
        SkipToken(token, v, rest);
        return true;
      }
      if token.ObjectOpen? && u.Struct? {
        accepted := WalkFields(schema(u.id), v.members, rest);
        return;
      }
      if token.ObjectOpen? && u.Map? {
        accepted := WalkMap(u.elem, v.members, rest);
        return;
      }
      if token.ArrayOpen? && u.Slice? {
        accepted := WalkSlice(u.elem, v.items, rest);
        return;
      }
      SkipToken(token, v, rest);
      return true;
    }

    /** What the `seen` map holds after the names so far: their keys. */
    ghost predicate Seen(seen: map<Name, Name>, names: seq<Name>) {
      forall key :: key in seen <==> HasKey(names, key)
    }

    ghost predicate HasKey(names: seq<Name>, key: Name) {
      exists i :: 0 <= i < |names| && KeyOf(fold, names[i]) == key
    }

    method WalkFields(fields: Fields, ghost members: Members, ghost rest: seq<Token>) returns (accepted: bool)
      requires FiniteOrbits(fold) && unread == MemberTokens(members) + [ObjectClose] + rest
      modifies this
      ensures accepted == (FoldDistinct(fold, Names(members)) && AllCanonical(fold, fields, Names(members))
                           && FieldsAccept(fold, schema, fields, members))
      ensures accepted ==> unread == rest
      decreases MembersSize(members), 2
    {
      var seen: map<Name, Name> := map[];
      ghost var left := members;
      ghost var names: seq<Name> := [];
      AfterMembers(left, rest);
      while More()
        invariant MembersSize(left) <= MembersSize(members)
        invariant unread == MemberTokens(left) + [ObjectClose] + rest && (More() <==> left.Member?)
        invariant names + Names(left) == Names(members) && Seen(seen, names)
        invariant FoldDistinct(fold, names) && AllCanonical(fold, fields, names)
        invariant FieldsAccept(fold, schema, fields, members) <==> FieldsAccept(fold, schema, fields, left)
        decreases MembersSize(left)
      {
        MemberFirst(left, rest);
        NameHere(names, left);
        var token := Next();
        var name := token.name;
        var key := FieldFoldKey(fold, name);
        if key in seen {
          DuplicateFound(names, name, left, members);
          return false;
        }
        NoDuplicate(seen, names, name);
        seen := seen[key := name];
        if name !in fields {
          var canonical := CanonicalName(fields, name);
          if canonical.Some? {
            NotCanonical(fields, names, name, left, members, canonical.value);
            return false;
          }
          SkipValue(left.value, MemberTokens(left.more) + [ObjectClose] + rest);
        } else {
          var ok := WalkValue(fields[name], left.value, MemberTokens(left.more) + [ObjectClose] + rest);
          if !ok {
            return false;
          }
        }
        names := names + [name];
        left := left.more;
        AfterMembers(left, rest);
      }
      assert names + [] == names;
      var _ := Next();
      accepted := true;
    }

    method WalkMap(elem: GoType, ghost members: Members, ghost rest: seq<Token>) returns (accepted: bool)
      requires FiniteOrbits(fold) && unread == MemberTokens(members) + [ObjectClose] + rest
      modifies this
      ensures accepted == ValuesAccept(fold, schema, elem, members)
      ensures accepted ==> unread == rest
      decreases MembersSize(members), 2
    {
      ghost var left := members;
      AfterMembers(left, rest);
      while More()
        invariant MembersSize(left) <= MembersSize(members)
        invariant unread == MemberTokens(left) + [ObjectClose] + rest && (More() <==> left.Member?)
        invariant ValuesAccept(fold, schema, elem, members) <==> ValuesAccept(fold, schema, elem, left)
        decreases MembersSize(left)
      {
        MemberFirst(left, rest);
        var _ := Next();
        var ok := WalkValue(elem, left.value, MemberTokens(left.more) + [ObjectClose] + rest);
        if !ok {
          return false;
        }
        left := left.more;
        AfterMembers(left, rest);
      }
      var _ := Next();
      accepted := true;
    }

    method WalkSlice(elem: GoType, ghost items: Items, ghost rest: seq<Token>) returns (accepted: bool)
      requires FiniteOrbits(fold) && unread == ItemTokens(items) + [ArrayClose] + rest
      modifies this
      ensures accepted == ItemsAccept(fold, schema, elem, items)
      ensures accepted ==> unread == rest
      decreases ItemsSize(items), 2
    {
      ghost var left := items;
      AfterItems(left, rest);
      while More()
        invariant ItemsSize(left) <= ItemsSize(items)
        invariant unread == ItemTokens(left) + [ArrayClose] + rest && (More() <==> left.Item?)
        invariant ItemsAccept(fold, schema, elem, items) <==> ItemsAccept(fold, schema, elem, left)
        decreases ItemsSize(left)
      {
        ItemFirst(left, rest);
        var ok := WalkValue(elem, left.value, ItemTokens(left.more) + [ArrayClose] + rest);
        if !ok {
          return false;
        }
        left := left.more;
        AfterItems(left, rest);
      }
      var _ := Next();
      accepted := true;
    }

    lemma NameHere(names: seq<Name>, left: Members)
      requires left.Member?
      ensures names + Names(left) == (names + [left.name]) + Names(left.more)
      ensures (names + Names(left))[|names|] == left.name
    {
      assert Names(left) == [left.name] + Names(left.more);
    }

    lemma DuplicateFound(names: seq<Name>, name: Name, left: Members, members: Members)
      requires FiniteOrbits(fold) && left.Member? && left.name == name && names + Names(left) == Names(members)
      requires HasKey(names, KeyOf(fold, name))
      ensures !FoldDistinct(fold, Names(members))
    {
      var i :| 0 <= i < |names| && KeyOf(fold, names[i]) == KeyOf(fold, name);
      KeyIffFoldEqual(fold, names[i], name);
      NameHere(names, left);
      assert Names(members)[i] == names[i];
    }

    lemma NoDuplicate(seen: map<Name, Name>, names: seq<Name>, name: Name)
      requires FiniteOrbits(fold) && Seen(seen, names) && KeyOf(fold, name) !in seen && FoldDistinct(fold, names)
      ensures Seen(seen[KeyOf(fold, name) := name], names + [name]) && FoldDistinct(fold, names + [name])
    {
      var more := names + [name];
      forall i | 0 <= i < |names|
        ensures !FoldEqual(fold, names[i], name)
      {
        KeyIffFoldEqual(fold, names[i], name);
      }
      assert more[|names|] == name;
      forall key
        ensures key in seen[KeyOf(fold, name) := name] <==> HasKey(more, key)
      {
        if i :| 0 <= i < |names| && KeyOf(fold, names[i]) == key {
          assert more[i] == names[i];
        }
      }
    }

    lemma NotCanonical(fields: Fields, names: seq<Name>, name: Name, left: Members, members: Members, canonical: Name)
      requires left.Member? && left.name == name && names + Names(left) == Names(members)
      requires name !in fields && canonical in fields && FoldEqual(fold, canonical, name)
      ensures !AllCanonical(fold, fields, Names(members))
    {
      NameHere(names, left);
      assert !Canonical(fold, fields, Names(members)[|names|]);
    }
  }

  lemma AfterMembers(left: Members, rest: seq<Token>)
    ensures var ts := MemberTokens(left) + [ObjectClose] + rest;
            ts != [] && (Closer(ts[0]) <==> left.NoMembers?) && (left.NoMembers? ==> ts[1..] == rest)
  {
  }

  lemma AfterItems(left: Items, rest: seq<Token>)
    ensures var ts := ItemTokens(left) + [ArrayClose] + rest;
            ts != [] && (Closer(ts[0]) <==> left.NoItems?) && (left.NoItems? ==> ts[1..] == rest)
  {
  }

  lemma Regroup(a: seq<Token>, b: seq<Token>, c: seq<Token>, d: seq<Token>, e: seq<Token>)
    ensures a + b + c + d + e == a + (b + (c + d + e))
  {
  }

  lemma MemberFirst(left: Members, rest: seq<Token>)
    requires left.Member?
    ensures var ts := MemberTokens(left) + [ObjectClose] + rest;
            && ts[0] == Text(left.name)
            && ts[1..] == Tokens(left.value) + (MemberTokens(left.more) + [ObjectClose] + rest)
  {
    var first, value, more := [Text(left.name)], Tokens(left.value), MemberTokens(left.more);
    assert MemberTokens(left) == first + value + more;
    Regroup(first, value, more, [ObjectClose], rest);
    hide Tokens, MemberTokens;
    var ts := first + (value + (more + [ObjectClose] + rest));
    assert ts[0] == first[0] && ts[1..] == value + (more + [ObjectClose] + rest);
  }

  lemma ItemFirst(left: Items, rest: seq<Token>)
    requires left.Item?
    ensures ItemTokens(left) + [ArrayClose] + rest == Tokens(left.value) + (ItemTokens(left.more) + [ArrayClose] + rest)
  {
    var value, more := Tokens(left.value), ItemTokens(left.more);
    assert ItemTokens(left) == value + more;
    Regroup([], value, more, [ArrayClose], rest);
    assert [] + value + more == value + more;
  }
}
