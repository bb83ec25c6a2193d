/** File and client names: the client's length test, the base name, and the fixed-size fields. */
module Names {
  import opened Bytes

  /** MAX_NAME and MAX_FILE_NAME, the size of the fields for names. */
  const NAME_FIELD: nat := 255
  const NPOS: nat := SIZE_T - 1

  predicate IsSeparator(c: Byte) {
    c == 0x2f || c == 0x5c
  }

  /** path.find_last_of("/\\"). */
  function FindLastSeparator(path: seq<Byte>): (pos: nat)
    requires |path| < NPOS
    ensures pos == NPOS || pos < |path|
  {
    if |path| == 0 then NPOS
    else if IsSeparator(path[|path| - 1]) then |path| - 1
    else FindLastSeparator(path[..|path| - 1])
  }

  /** The client's test. The difference of two size_t values wraps when there is no separator. */
  predicate CheckLegality(name: seq<Byte>, filePath: seq<Byte>)
    requires |filePath| < NPOS
  {
    && |name| <= NAME_FIELD
    && (|filePath| - FindLastSeparator(filePath)) % SIZE_T <= NAME_FIELD
  }

  /** filePath.substr(pos + 1); the sum wraps to 0 when there is no separator. */
  function BaseName(filePath: seq<Byte>): seq<Byte>
    requires |filePath| < NPOS
  {
    filePath[(FindLastSeparator(filePath) + 1) % SIZE_T..]
  }

  /** path[:path.find(b'\x00')]: up to the first NUL, and without the last byte when there is none. */
  function UntilNul(field: seq<Byte>): (s: seq<Byte>)
    ensures |s| <= |field| && s == field[..|s|]
  {
    if 0 in field then FirstNul(field) else if |field| == 0 then [] else field[..|field| - 1]
  }

  function FirstNul(field: seq<Byte>): (s: seq<Byte>)
    requires 0 in field
    ensures |s| < |field| && s == field[..|s|] && 0 !in s && field[|s|] == 0
  {
    if field[0] == 0 then [] else [field[0]] + FirstNul(field[1..])
  }

  lemma {:induction false} LastSeparatorIsLast(path: seq<Byte>)
    requires |path| < NPOS
    ensures var pos := FindLastSeparator(path);
            if pos == NPOS then forall i :: 0 <= i < |path| ==> !IsSeparator(path[i])
            else IsSeparator(path[pos]) && forall i :: pos < i < |path| ==> !IsSeparator(path[i])
  {
    if |path| == 0 || IsSeparator(path[|path| - 1]) {
    } else {
      LastSeparatorIsLast(path[..|path| - 1]);
    }
  }

  /** The base name is what follows the last slash or backslash: it holds none, and the path ends with it. */
  lemma BaseNameIsTheLastComponent(path: seq<Byte>)
    requires |path| < NPOS
    ensures var n := |BaseName(path)|;
            && n <= |path| && BaseName(path) == path[|path| - n..]
            && 0x2f !in BaseName(path) && 0x5c !in BaseName(path)
            && (n < |path| ==> path[|path| - n - 1] == 0x2f || path[|path| - n - 1] == 0x5c)
  {
    LastSeparatorIsLast(path);
  }

  /** So it does not depend on the directory, whichever of the two sets that off; a bare name is its own. */
  lemma BaseNameOf(dir: seq<Byte>, c: Byte, base: seq<Byte>)
    requires c == 0x2f || c == 0x5c
    requires |dir| + 1 + |base| < NPOS && 0x2f !in base && 0x5c !in base
    ensures BaseName(dir + [c] + base) == base && BaseName(base) == base
  {
    hide BaseName;
    var path := dir + [c] + base;
    BaseNameIsTheLastComponent(path);
    BaseNameIsTheLastComponent(base);
    assert path[|dir|] == c && path[|dir| + 1..] == base;
  }

  /** The wrapping test means what it was meant to mean, with and without a separator. */
  lemma LegalIff(name: seq<Byte>, path: seq<Byte>)
    requires |path| < NPOS
    ensures CheckLegality(name, path) <==> |name| <= NAME_FIELD && |BaseName(path)| <= NAME_FIELD - 1
  {
    var pos := FindLastSeparator(path);
    if pos == NPOS {
      assert |path| - NPOS == |path| + 1 - SIZE_T;
    }
  }

  /** A zero-filled field gives a name back exactly when the name has no NUL and leaves room for one. */
  lemma FieldRoundTripIff(name: seq<Byte>, size: nat)
    requires |name| <= size
    ensures UntilNul(Field(name, size)) == name <==> 0 !in name && (|name| < size || size == 0)
  {
    var field := Field(name, size);
    var s := UntilNul(field);
    if |name| < size {
      assert field[|name|] == 0;
      assert 0 in field;
      if 0 !in name {
        assert forall i :: 0 <= i < |name| ==> field[i] == name[i] != 0;
        assert |s| >= |name|;
        assert |s| <= |name|;
      }
    } else {
      assert field == name;
    }
  }

  /** The server recovers the base name of every accepted path that has no NUL in it. */
  lemma FileNameArrives(name: seq<Byte>, path: seq<Byte>)
    requires |path| < NPOS && CheckLegality(name, path)
    ensures |BaseName(path)| < NAME_FIELD
    ensures UntilNul(Field(BaseName(path), NAME_FIELD)) == BaseName(path) <==> 0 !in BaseName(path)
  {
    LegalIff(name, path);
    FieldRoundTripIff(BaseName(path), NAME_FIELD);
  }

  /** An accepted client name arrives unless it has a NUL or fills all 255 bytes of its field. */
  lemma ClientNameArrivesIff(name: seq<Byte>, path: seq<Byte>)
    requires |path| < NPOS && CheckLegality(name, path)
    ensures UntilNul(Field(name, NAME_FIELD)) == name <==> 0 !in name && |name| != NAME_FIELD
  {
    FieldRoundTripIff(name, NAME_FIELD);
  }

  /** Two accepted names of 255 bytes that differ in the last one are the same name to the server. */
  lemma LongNamesCollide(prefix: seq<Byte>, x: Byte, y: Byte)
    requires |prefix| == NAME_FIELD - 1 && 0 !in prefix && x != 0 && y != 0
    ensures UntilNul(Field(prefix + [x], NAME_FIELD)) == UntilNul(Field(prefix + [y], NAME_FIELD)) == prefix
  {
    assert Field(prefix + [x], NAME_FIELD) == prefix + [x] && Field(prefix + [y], NAME_FIELD) == prefix + [y];
  }
}
