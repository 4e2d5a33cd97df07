/**
 The token tables: class and type tokens loaded from the definition database, and lookups
 that insert an empty token when a key is missing.
 */
module Tokens {

  const UINT16 := 0x1_0000

  datatype ClassRow = ClassRow(cls: int, token: string)

  datatype TypeRow = TypeRow(typ: int, cls: int, token: string)

  /** The conversion of a database integer to a 16-bit identifier. */
  function Truncate(x: int): int { x % UINT16 }

  /** The conversion keeps 16-bit values and is the remainder modulo 65536 otherwise. */
  lemma TruncateKeeps16(x: int, k: int)
    ensures 0 <= Truncate(x) < 0x1_0000
    ensures 0 <= x < 0x1_0000 ==> Truncate(x) == x
    ensures Truncate(x + 0x1_0000 * k) == Truncate(x)
  {
    assert (x + 0x1_0000 * k) % 0x1_0000 == x % 0x1_0000;
  }

  /** Class and type packed into one 32-bit key. */
  function Key(cls: int, typ: int): int { cls * UINT16 + typ }

  predicate Is16(x: int) { 0 <= x < UINT16 }

  /** No two pairs of 16-bit identifiers share a key. */
  lemma KeyInjective(c1: int, t1: int, c2: int, t2: int)
    requires Is16(c1) && Is16(t1) && Is16(c2) && Is16(t2)
    ensures Key(c1, t1) == Key(c2, t2) <==> c1 == c2 && t1 == t2
    ensures 0 <= Key(c1, t1) < 0x1_0000_0000
  {
  }

  /** A lookup's answer. */
  function Token(m: map<int, string>, key: int): string {
    if key in m then m[key] else ""
  }

  /** The token of the last row that matches, or the empty string. */
  function ScanClasses(rows: seq<ClassRow>, cls: int): string {
    if rows == [] then ""
    else if Truncate(rows[|rows| - 1].cls) == cls then rows[|rows| - 1].token
    else ScanClasses(rows[..|rows| - 1], cls)
  }

  function ScanTypes(rows: seq<TypeRow>, cls: int, typ: int): string {
    if rows == [] then ""
    else if Truncate(rows[|rows| - 1].cls) == cls && Truncate(rows[|rows| - 1].typ) == typ then rows[|rows| - 1].token
    else ScanTypes(rows[..|rows| - 1], cls, typ)
  }

  class TokenTables {
    var classes: map<int, string>
    var types: map<int, string>

    constructor ()
      ensures classes == map[] && types == map[]
    {
      classes, types := map[], map[];
    }

    method LoadClasses(rows: seq<ClassRow>)
      requires classes == map[]
      modifies this`classes
      ensures forall c :: Token(classes, c) == ScanClasses(rows, c)
    {
      var i := 0;
      while i < |rows|
        invariant 0 <= i <= |rows|
        invariant forall c :: Token(classes, c) == ScanClasses(rows[..i], c)
      {
        assert rows[..i + 1][..i] == rows[..i];
        classes := classes[Truncate(rows[i].cls) := rows[i].token];
        i := i + 1;
      }
      assert rows[..|rows|] == rows;
    }

    /** Main result. After loading any rows, the table agrees with a scan of them for every
        pair of 16-bit identifiers. */
    method LoadTypes(rows: seq<TypeRow>)
      requires types == map[]
      modifies this`types
      ensures forall c, t :: Is16(c) && Is16(t) ==> Token(types, Key(c, t)) == ScanTypes(rows, c, t)
    {
      var i := 0;
      while i < |rows|
        invariant 0 <= i <= |rows|
        invariant forall c, t :: Is16(c) && Is16(t) ==> Token(types, Key(c, t)) == ScanTypes(rows[..i], c, t)
      {
        assert rows[..i + 1][..i] == rows[..i];
        var cls, typ := Truncate(rows[i].cls), Truncate(rows[i].typ);
        ghost var was := types;
        types := types[Key(cls, typ) := rows[i].token];
        forall c, t | Is16(c) && Is16(t) ensures Token(types, Key(c, t)) == ScanTypes(rows[..i + 1], c, t) {
          KeyInjective(c, t, cls, typ);
          assert Token(was, Key(c, t)) == ScanTypes(rows[..i], c, t);
        }
        i := i + 1;
      }
      assert rows[..|rows|] == rows;
    }

    /** A lookup may insert an empty token, which no later lookup of any key can notice. */
    method GetTokenFromClassId(id: int) returns (token: string)
      modifies this`classes
      ensures token == Token(old(classes), id)
      ensures classes == if id in old(classes) then old(classes) else old(classes)[id := ""]
      ensures forall k :: Token(classes, k) == Token(old(classes), k)
    {
      if id !in classes { classes := classes[id := ""]; }
      token := classes[id];
    }

    method GetTokenFromTypeId(cid: int, tid: int) returns (token: string)
      modifies this`types
      ensures token == Token(old(types), Key(cid, tid))
      ensures types == if Key(cid, tid) in old(types) then old(types) else old(types)[Key(cid, tid) := ""]
      ensures forall k :: Token(types, k) == Token(old(types), k)
    {
      if Key(cid, tid) !in types { types := types[Key(cid, tid) := ""]; }
      token := types[Key(cid, tid)];
    }
  }

  /** What the scan returns: the token of a matching row after which none matches, or the
      empty string if none matches at all. */
  lemma {:induction false} ScanTypesIsLast(rows: seq<TypeRow>, cls: int, typ: int, i: nat)
    requires i < |rows| && Truncate(rows[i].cls) == cls && Truncate(rows[i].typ) == typ
    requires forall j :: i < j < |rows| ==> Truncate(rows[j].cls) != cls || Truncate(rows[j].typ) != typ
    ensures ScanTypes(rows, cls, typ) == rows[i].token
    decreases |rows|
  {
    if i == |rows| - 1 {
    } else {
      ScanTypesIsLast(rows[..|rows| - 1], cls, typ, i);
    }
  }

  lemma {:induction false} ScanClassesIsLast(rows: seq<ClassRow>, cls: int, i: nat)
    requires i < |rows| && Truncate(rows[i].cls) == cls
    requires forall j :: i < j < |rows| ==> Truncate(rows[j].cls) != cls
    ensures ScanClasses(rows, cls) == rows[i].token
    decreases |rows|
  {
    if i == |rows| - 1 {
    } else {
      ScanClassesIsLast(rows[..|rows| - 1], cls, i);
    }
  }

  lemma {:induction false} ScanClassesMisses(rows: seq<ClassRow>, cls: int)
    requires forall j :: 0 <= j < |rows| ==> Truncate(rows[j].cls) != cls
    ensures ScanClasses(rows, cls) == ""
    decreases |rows|
  {
    if rows == [] {
    } else {
      ScanClassesMisses(rows[..|rows| - 1], cls);
    }
  }

  lemma {:induction false} ScanTypesMisses(rows: seq<TypeRow>, cls: int, typ: int)
    requires forall j :: 0 <= j < |rows| ==> Truncate(rows[j].cls) != cls || Truncate(rows[j].typ) != typ
    ensures ScanTypes(rows, cls, typ) == ""
    decreases |rows|
  {
    if rows == [] {
    } else {
      ScanTypesMisses(rows[..|rows| - 1], cls, typ);
    }
  }
}
