/** The symbol table of the formula encoding (SymbolEncoding): symbols are entered once
    with their type, looked up with the signedness taken from the program's
    declarations, and written to and read back from a tab-separated line format. */
module SymbolEncoding {
  import opened Wrappers

  /** A solver formula type. Its textual form (FormulaType.toString/fromString) is not
      part of this model and is passed in where needed. */
  type FormulaType = nat

  /** SymbolEncoding.Type: a return type, parameter types and a signedness flag. */
  datatype SymbolType = SymbolType(returnType: FormulaType, parameterTypes: seq<FormulaType>, signed: bool)

  /** A new Type is signed. */
  function NewType(returnType: FormulaType, parameterTypes: seq<FormulaType>): SymbolType
  {
    SymbolType(returnType, parameterTypes, true)
  }

  /** Type.equals: return type and parameter list, the sign flag is ignored. */
  predicate SameType(a: SymbolType, b: SymbolType)
  {
    a.returnType == b.returnType && a.parameterTypes == b.parameterTypes
  }

  // ---------------------------------------------------------------------------
  // Java int arithmetic for hashCode

  const TwoTo31: int := 0x8000_0000
  const TwoTo32: int := 0x1_0000_0000

  /** The 32-bit two's complement value of `x` (Java int overflow). */
  function Wrap32(x: int): (r: int)
    ensures -TwoTo31 <= r < TwoTo31
    ensures (r - x) % TwoTo32 == 0
  {
    var m := (x + TwoTo31) % TwoTo32;
    assert (m - TwoTo31 - x) == ((x + TwoTo31) % TwoTo32) - (x + TwoTo31);
    m - TwoTo31
  }

  /** List.hashCode over the first `n` parameter types: 1, then 31 * h + element hash. */
  function ListHash(params: seq<FormulaType>, hash: FormulaType -> int, n: nat): int
    requires n <= |params|
  {
    if n == 0 then 1 else Wrap32(31 * ListHash(params, hash, n - 1) + hash(params[n - 1]))
  }

  /** Type.hashCode: return type hash plus 17 times the parameter list hash. */
  function TypeHash(t: SymbolType, hash: FormulaType -> int): int
  {
    Wrap32(hash(t.returnType) + 17 * ListHash(t.parameterTypes, hash, |t.parameterTypes|))
  }

  /** hashCode is consistent with equals: equal types hash alike, whatever their signs. */
  lemma HashRespectsSameType(a: SymbolType, b: SymbolType, hash: FormulaType -> int)
    requires SameType(a, b)
    ensures TypeHash(a, hash) == TypeHash(b, hash)
  {
  }

  // ---------------------------------------------------------------------------
  // String.split with a one-character separator

  /** Every field between separators, empty ones included. */
  function SplitAll(s: string, sep: char): (r: seq<string>)
    ensures |r| >= 1
  {
    if |s| == 0 then [""]
    else
      var rest := SplitAll(s[1..], sep);
      if s[0] == sep then [""] + rest else [[s[0]] + rest[0]] + rest[1..]
  }

  /** The fields without the trailing empty ones. */
  function DropTrailingEmpty(fields: seq<string>): seq<string>
  {
    if |fields| == 0 then []
    else if fields[|fields| - 1] == "" then DropTrailingEmpty(fields[..|fields| - 1])
    else fields
  }

  /** Java's String.split(regex) for a regex matching the single character `sep`: the
      string itself when the separator does not occur, and otherwise all fields with
      the trailing empty ones removed. */
  function JavaSplit(s: string, sep: char): seq<string>
  {
    if sep !in s then [s] else DropTrailingEmpty(SplitAll(s, sep))
  }

  /** The first field is the part of `s` before the first separator. */
  lemma {:induction false} FirstFieldIsPrefix(s: string, sep: char)
    ensures var f := SplitAll(s, sep)[0];
      && f <= s && sep !in f && (|f| < |s| ==> s[|f|] == sep)
  {
    if |s| != 0 && s[0] != sep {
      FirstFieldIsPrefix(s[1..], sep);
    }
  }

  /** All fields are empty exactly when the string consists of separators only. */
  lemma {:induction false} AllFieldsEmpty(s: string, sep: char)
    ensures (forall i | 0 <= i < |SplitAll(s, sep)| :: SplitAll(s, sep)[i] == "") <==>
            (forall k | 0 <= k < |s| :: s[k] == sep)
  {
    if |s| != 0 {
      AllFieldsEmpty(s[1..], sep);
      var rest := SplitAll(s[1..], sep);
      if s[0] == sep {
        assert SplitAll(s, sep) == [""] + rest;
        if forall k | 0 <= k < |s[1..]| :: s[1..][k] == sep {
          assert forall k | 0 <= k < |s| :: s[k] == sep by {
            forall k | 0 < k < |s| ensures s[k] == sep { assert s[k] == s[1..][k - 1]; }
          }
        } else {
          var k :| 0 <= k < |s[1..]| && s[1..][k] != sep;
          assert s[k + 1] != sep;
          assert SplitAll(s, sep)[1..] == rest;
        }
      } else {
        assert SplitAll(s, sep)[0] != "";
      }
    }
  }

  /** Dropping the trailing empty fields leaves nothing exactly when every field is
      empty, and otherwise keeps the first field. */
  lemma {:induction false} DropTrailingEmptyKeepsFirst(fields: seq<string>)
    ensures DropTrailingEmpty(fields) == [] <==> forall i | 0 <= i < |fields| :: fields[i] == ""
    ensures DropTrailingEmpty(fields) != [] ==> DropTrailingEmpty(fields)[0] == fields[0]
    ensures DropTrailingEmpty(fields) <= fields
  {
    if |fields| != 0 && fields[|fields| - 1] == "" {
      var init := fields[..|fields| - 1];
      DropTrailingEmptyKeepsFirst(init);
      assert forall i | 0 <= i < |init| :: init[i] == fields[i];
    }
  }

  /** The symbol without its SSA index: the first field of splitting at `@`; a symbol
      made of `@` characters only leaves no field, and indexing it fails. */
  function StripIndex(symbol: string): Option<string>
  {
    var fields := JavaSplit(symbol, '@');
    if |fields| == 0 then None else Some(fields[0])
  }

  /** Stripping keeps exactly the part before the first `@`, and fails only for a
      non-empty symbol of `@` characters. */
  lemma StripIndexIsPrefix(symbol: string)
    ensures StripIndex(symbol).None? <==> |symbol| > 0 && forall k | 0 <= k < |symbol| :: symbol[k] == '@'
    ensures StripIndex(symbol).Some? ==>
      var name := StripIndex(symbol).value;
      && name <= symbol && '@' !in name && (|name| < |symbol| ==> symbol[|name|] == '@')
  {
    if '@' in symbol {
      var fields := SplitAll(symbol, '@');
      DropTrailingEmptyKeepsFirst(fields);
      AllFieldsEmpty(symbol, '@');
      FirstFieldIsPrefix(symbol, '@');
    } else if |symbol| > 0 {
      assert symbol[0] != '@';
    }
  }

  // ---------------------------------------------------------------------------
  // Joining fields and splitting them again

  /** Fields joined with the separator between them. */
  function Join(fields: seq<string>, sep: char): string
    requires |fields| >= 1
  {
    if |fields| == 1 then fields[0] else fields[0] + [sep] + Join(fields[1..], sep)
  }

  /** Splitting a string whose start holds no separator continues the first field. */
  lemma {:induction false} SplitAfterPlainPrefix(a: string, t: string, sep: char)
    requires sep !in a
    ensures SplitAll(a + t, sep) == [a + SplitAll(t, sep)[0]] + SplitAll(t, sep)[1..]
  {
    if |a| != 0 {
      assert (a + t)[1..] == a[1..] + t;
      SplitAfterPlainPrefix(a[1..], t, sep);
      assert [a[0]] + (a[1..] + SplitAll(t, sep)[0]) == a + SplitAll(t, sep)[0];
    } else {
      var f := SplitAll(t, sep);
      assert a + t == t && a + f[0] == f[0];
      assert [f[0]] + f[1..] == f;
    }
  }

  /** Splitting joined separator-free fields gives the fields back. */
  lemma {:induction false} SplitJoin(fields: seq<string>, sep: char)
    requires |fields| >= 1
    requires forall i | 0 <= i < |fields| :: sep !in fields[i]
    ensures SplitAll(Join(fields, sep), sep) == fields
  {
    if |fields| == 1 {
      SplitAfterPlainPrefix(fields[0], "", sep);
      assert fields[0] + "" == fields[0];
    } else {
      var rest := Join(fields[1..], sep);
      SplitJoin(fields[1..], sep);
      var u := [sep] + rest;
      assert fields[0] + [sep] + rest == fields[0] + u;
      assert u[1..] == rest;
      assert SplitAll(u, sep) == [""] + fields[1..];
      SplitAfterPlainPrefix(fields[0], u, sep);
      assert fields[0] + "" == fields[0];
      assert fields == [fields[0]] + fields[1..];
    }
  }

  /** A join of two or more fields contains the separator. */
  lemma JoinHasSeparator(fields: seq<string>, sep: char)
    requires |fields| >= 2
    ensures sep in Join(fields, sep)
  {
    assert Join(fields, sep)[|fields[0]|] == sep;
  }

  // ---------------------------------------------------------------------------
  // The dump line format

  /** The textual forms of the parameter types. */
  function Shown(params: seq<FormulaType>, show: FormulaType -> string): (r: seq<string>)
    ensures |r| == |params|
    ensures forall i | 0 <= i < |params| :: r[i] == show(params[i])
  {
    seq(|params|, i requires 0 <= i < |params| => show(params[i]))
  }

  /** One dumped line (without its newline): the symbol, a tab and the return type, then
      a tab and the tab-joined parameter types when there are any. */
  function DumpLine(symbol: string, t: SymbolType, show: FormulaType -> string): string
  {
    symbol + "\t" + show(t.returnType) +
    (if |t.parameterTypes| == 0 then "" else "\t" + Join(Shown(t.parameterTypes, show), '\t'))
  }

  datatype EncodingError = AssertionFailed | NullPointer | IndexOutOfBounds

  /** One line read back: field 0 is the symbol, field 1 the return type and the rest
      the parameter types; a line with fewer than two fields makes the array access
      fail. */
  function ReadLine(line: string, parse: string -> FormulaType): Result<(string, SymbolType), EncodingError>
  {
    ReadFields(JavaSplit(line, '\t'), parse)
  }

  function ReadFields(fields: seq<string>, parse: string -> FormulaType): Result<(string, SymbolType), EncodingError>
  {
    if |fields| < 2 then Failure(IndexOutOfBounds)
    else Success((fields[0], NewType(parse(fields[1]), seq(|fields| - 2, i requires 0 <= i < |fields| - 2 => parse(fields[i + 2])))))
  }

  /** The fields of a dumped line: the symbol, the return type, the parameter types. */
  function DumpFields(symbol: string, t: SymbolType, show: FormulaType -> string): seq<string>
  {
    [symbol, show(t.returnType)] + Shown(t.parameterTypes, show)
  }

  /** The dumped line is the tab join of its fields. */
  lemma DumpLineIsJoin(symbol: string, t: SymbolType, show: FormulaType -> string)
    ensures DumpLine(symbol, t, show) == Join(DumpFields(symbol, t, show), '\t')
  {
    var fields := DumpFields(symbol, t, show);
    assert fields[1..][1..] == Shown(t.parameterTypes, show);
    if |t.parameterTypes| == 0 {
      assert Join(fields[1..], '\t') == show(t.returnType);
    }
  }

  /** Splitting a dumped line at tabs gives its fields back. */
  lemma DumpLineSplits(symbol: string, t: SymbolType, show: FormulaType -> string)
    requires '\t' !in symbol
    requires forall x :: '\t' !in show(x) && |show(x)| > 0
    ensures JavaSplit(DumpLine(symbol, t, show), '\t') == DumpFields(symbol, t, show)
  {
    var fields := DumpFields(symbol, t, show);
    DumpLineIsJoin(symbol, t, show);
    forall i | 2 <= i < |fields| ensures '\t' !in fields[i] && fields[i] != "" {
      assert fields[i] == show(t.parameterTypes[i - 2]);
    }
    SplitJoin(fields, '\t');
    JoinHasSeparator(fields, '\t');
    assert fields[|fields| - 1] != "";
  }

  /** The type names are non-empty and tab-free, and read back as the types they name. */
  ghost predicate TypeNamesReadable(show: FormulaType -> string, parse: string -> FormulaType)
  {
    forall x :: '\t' !in show(x) && |show(x)| > 0 && parse(show(x)) == x
  }

  /** Reading a dumped line gives back the symbol and its type, with the sign reset to
      the default, provided the symbol holds no tab and the type names are non-empty,
      tab-free and read back as the types they name. */
  lemma ReadDumpedLine(symbol: string, t: SymbolType, show: FormulaType -> string, parse: string -> FormulaType)
    requires '\t' !in symbol
    requires TypeNamesReadable(show, parse)
    ensures ReadLine(DumpLine(symbol, t, show), parse) == Success((symbol, t.(signed := true)))
  {
    DumpLineSplits(symbol, t, show);
    ReadFieldsOfDump(symbol, t, show, parse);
  }

  /** The dumped fields read back as the symbol and its type, signed. */
  lemma ReadFieldsOfDump(symbol: string, t: SymbolType, show: FormulaType -> string, parse: string -> FormulaType)
    requires forall x :: parse(show(x)) == x
    ensures ReadFields(DumpFields(symbol, t, show), parse) == Success((symbol, t.(signed := true)))
  {
    var fields := DumpFields(symbol, t, show);
    var params := seq(|fields| - 2, i requires 0 <= i < |fields| - 2 => parse(fields[i + 2]));
    assert params == t.parameterTypes by {
      forall i | 0 <= i < |params| ensures params[i] == t.parameterTypes[i] {
        assert fields[i + 2] == show(t.parameterTypes[i]);
      }
    }
    assert parse(fields[1]) == t.returnType;
  }

  // ---------------------------------------------------------------------------
  // The symbol table

  /** put on a table value: a new symbol is entered; a known symbol keeps its type, and
      the assertion fails when the new type is not equal to it. */
  function Inserted(m: map<string, SymbolType>, symbol: string, t: SymbolType): Result<map<string, SymbolType>, EncodingError>
  {
    if symbol in m then (if SameType(m[symbol], t) then Success(m) else Failure(AssertionFailed))
    else Success(m[symbol := t])
  }

  /** Reading the first `n` lines into an empty table. */
  function Loaded(lines: seq<string>, parse: string -> FormulaType, n: nat): Result<map<string, SymbolType>, EncodingError>
    requires n <= |lines|
  {
    if n == 0 then Success(map[])
    else match Loaded(lines, parse, n - 1)
      case Failure(e) => Failure(e)
      case Success(m) =>
        match ReadLine(lines[n - 1], parse)
        case Failure(e) => Failure(e)
        case Success(entry) => Inserted(m, entry.0, entry.1)
  }

  /** The table entries for the first `n` keys, with the sign reset to the default. */
  function Reset(m: map<string, SymbolType>, keys: seq<string>, n: nat): map<string, SymbolType>
    requires n <= |keys| && forall i | 0 <= i < |keys| :: keys[i] in m
  {
    if n == 0 then map[] else Reset(m, keys, n - 1)[keys[n - 1] := m[keys[n - 1]].(signed := true)]
  }

  /** The keys of `Reset` are the first `n` keys. */
  lemma {:induction false} ResetKeys(m: map<string, SymbolType>, keys: seq<string>, n: nat)
    requires n <= |keys| && forall i | 0 <= i < |keys| :: keys[i] in m
    ensures forall k :: k in Reset(m, keys, n) <==> exists i | 0 <= i < n :: keys[i] == k
    ensures forall k | k in Reset(m, keys, n) :: Reset(m, keys, n)[k] == m[k].(signed := true)
  {
    if n != 0 {
      ResetKeys(m, keys, n - 1);
    }
  }

  /** The lines of a dump of `m`, one per key, in the (unspecified) key order `keys`. */
  function DumpLines(m: map<string, SymbolType>, keys: seq<string>, show: FormulaType -> string): (r: seq<string>)
    requires forall i | 0 <= i < |keys| :: keys[i] in m
    ensures |r| == |keys|
  {
    seq(|keys|, i requires 0 <= i < |keys| => DumpLine(keys[i], m[keys[i]], show))
  }

  /** Each key is dumped once, is a symbol of the table and holds no tab. */
  predicate DumpableKeys(m: map<string, SymbolType>, keys: seq<string>)
  {
    && (forall i, j | 0 <= i < j < |keys| :: keys[i] != keys[j])
    && (forall i | 0 <= i < |keys| :: keys[i] in m && '\t' !in keys[i])
  }

  /** Reading one more dumped line enters one more key. */
  lemma ReadDumpStep(m: map<string, SymbolType>, keys: seq<string>, show: FormulaType -> string,
                     parse: string -> FormulaType, n: nat)
    requires n < |keys|
    requires DumpableKeys(m, keys)
    requires TypeNamesReadable(show, parse)
    requires Loaded(DumpLines(m, keys, show), parse, n) == Success(Reset(m, keys, n))
    ensures Loaded(DumpLines(m, keys, show), parse, n + 1) == Success(Reset(m, keys, n + 1))
  {
    var lines := DumpLines(m, keys, show);
    assert lines[n] == DumpLine(keys[n], m[keys[n]], show);
    ReadDumpedLine(keys[n], m[keys[n]], show, parse);
    ResetKeys(m, keys, n);
    assert keys[n] !in Reset(m, keys, n);
  }

  /** Reading a dump gives back the table, every entry signed: the symbols are tab-free,
      the type names are non-empty, tab-free and read back as the types they name, and
      each key of the table is dumped once. */
  lemma ReadDump(m: map<string, SymbolType>, keys: seq<string>, show: FormulaType -> string,
                 parse: string -> FormulaType)
    requires forall i, j | 0 <= i < j < |keys| :: keys[i] != keys[j]
    requires forall k :: k in m <==> k in keys
    requires forall k | k in m :: '\t' !in k
    requires TypeNamesReadable(show, parse)
    ensures Loaded(DumpLines(m, keys, show), parse, |keys|) ==
            Success(map k | k in m :: m[k].(signed := true))
  {
    forall i | 0 <= i < |keys| ensures keys[i] in m && '\t' !in keys[i] {
      assert keys[i] in keys;
    }
    ReadDumpPrefix(m, keys, show, parse, |keys|);
    ResetCoversTable(m, keys);
  }

  /** Reading the first `n` dumped lines enters the first `n` keys. */
  lemma {:induction false} ReadDumpPrefix(m: map<string, SymbolType>, keys: seq<string>, show: FormulaType -> string,
                                          parse: string -> FormulaType, n: nat)
    requires n <= |keys|
    requires DumpableKeys(m, keys)
    requires TypeNamesReadable(show, parse)
    ensures Loaded(DumpLines(m, keys, show), parse, n) == Success(Reset(m, keys, n))
  {
    if n != 0 {
      ReadDumpPrefix(m, keys, show, parse, n - 1);
      ReadDumpStep(m, keys, show, parse, n - 1);
    }
  }

  /** Resetting every key of the table resets the whole table. */
  lemma ResetCoversTable(m: map<string, SymbolType>, keys: seq<string>)
    requires forall k :: k in m <==> k in keys
    ensures Reset(m, keys, |keys|) == map k | k in m :: m[k].(signed := true)
  {
    ResetKeys(m, keys, |keys|);
    var all := Reset(m, keys, |keys|);
    forall k | k in m ensures k in all {
      var i :| 0 <= i < |keys| && keys[i] == k;
    }
  }

  /** A declaration of the program: its qualified name and, for a simple C type,
      whether it is unsigned. */
  datatype Declaration = Declaration(qualifiedName: string, simpleUnsigned: Option<bool>)

  /** A declaration of a simple C type named `name`. */
  predicate SimpleDeclarationOf(d: Declaration, name: string)
  {
    d.qualifiedName == name && d.simpleUnsigned.Some?
  }

  /** The sign flag after visiting the first `n` declarations, starting from `signed`. */
  function SignAfter(decls: seq<Declaration>, name: string, n: nat, signed: bool): bool
    requires n <= |decls|
  {
    if n == 0 then signed
    else if SimpleDeclarationOf(decls[n - 1], name) then !decls[n - 1].simpleUnsigned.value
    else SignAfter(decls, name, n - 1, signed)
  }

  /** Without a simple declaration of the name the sign stays as it was. */
  lemma {:induction false} NoSimpleDeclarationKeepsSign(decls: seq<Declaration>, name: string, n: nat, signed: bool)
    requires n <= |decls|
    requires forall i | 0 <= i < n :: !SimpleDeclarationOf(decls[i], name)
    ensures SignAfter(decls, name, n, signed) == signed
  {
    if n != 0 {
      NoSimpleDeclarationKeepsSign(decls, name, n - 1, signed);
    }
  }

  /** The last simple declaration of the name decides the sign. */
  lemma {:induction false} LastSimpleDeclarationDecides(decls: seq<Declaration>, name: string, n: nat,
                                                        signed: bool, last: nat)
    requires last < n <= |decls|
    requires SimpleDeclarationOf(decls[last], name)
    requires forall j | last < j < n :: !SimpleDeclarationOf(decls[j], name)
    ensures SignAfter(decls, name, n, signed) == !decls[last].simpleUnsigned.value
  {
    if n - 1 != last {
      LastSimpleDeclarationDecides(decls, name, n - 1, signed, last);
    }
  }

  /** Some declaration carries the name. */
  predicate Declared(decls: seq<Declaration>, name: string)
  {
    exists i | 0 <= i < |decls| :: decls[i].qualifiedName == name
  }

  /** `.def_` symbols are helper variables of the solver. */
  predicate IsHelperSymbol(symbol: string)
  {
    |symbol| >= 5 && symbol[..5] == ".def_"
  }

  class SymbolEncoding {
    var encodedSymbols: map<string, SymbolType>
    var decls: seq<Declaration>

    constructor ()
      ensures encodedSymbols == map[] && decls == []
    {
      encodedSymbols := map[];
      decls := [];
    }

    /** withCFA: the declarations of the program, in iteration order. */
    method WithDeclarations(declarations: seq<Declaration>)
      modifies this
      ensures decls == declarations && encodedSymbols == old(encodedSymbols)
    {
      decls := declarations;
    }

    /** put: a symbol is entered once; a repeated put keeps the stored type and fails
        its assertion when the new type is not equal to it. */
    method Put(symbol: string, t: SymbolType) returns (r: Result<(), EncodingError>)
      modifies this
      ensures r.Success? ==> Inserted(old(encodedSymbols), symbol, t) == Success(encodedSymbols)
      ensures r.Failure? ==> Inserted(old(encodedSymbols), symbol, t) == Failure(r.error)
      ensures r.Failure? ==> encodedSymbols == old(encodedSymbols)
      ensures symbol in old(encodedSymbols) ==> encodedSymbols == old(encodedSymbols)
      ensures ContainsSymbol(symbol) && decls == old(decls)
    {
      if symbol in encodedSymbols {
        if !SameType(encodedSymbols[symbol], t) {
          return Failure(AssertionFailed);
        }
      } else {
        encodedSymbols := encodedSymbols[symbol := t];
      }
      return Success(());
    }

    predicate ContainsSymbol(symbol: string)
      reads this
    {
      symbol in encodedSymbols
    }

    /** getType: the stored type of a known symbol (an unknown one fails the null check).
        Unless the symbol is a solver helper, its sign is set from the simple declarations
        of the name without SSA index, the last one winning, or, when no declaration has
        that name, from the struct member reached through a pointer, which is given as
        `memberSign`. The stored type object is the one changed. */
    method GetType(symbol: string, memberSign: string -> Option<bool>) returns (r: Result<SymbolType, EncodingError>)
      modifies this
      ensures decls == old(decls)
      ensures symbol !in old(encodedSymbols) ==> r == Failure(NullPointer) && encodedSymbols == old(encodedSymbols)
      ensures symbol in old(encodedSymbols) && IsHelperSymbol(symbol) ==>
        r == Success(old(encodedSymbols)[symbol]) && encodedSymbols == old(encodedSymbols)
      ensures symbol in old(encodedSymbols) && !IsHelperSymbol(symbol) && StripIndex(symbol).None? ==>
        r == Failure(IndexOutOfBounds) && encodedSymbols == old(encodedSymbols)
      ensures symbol in old(encodedSymbols) && !IsHelperSymbol(symbol) && StripIndex(symbol).Some? ==>
        var name := StripIndex(symbol).value;
        var t := old(encodedSymbols)[symbol];
        var signed := if Declared(decls, name) then SignAfter(decls, name, |decls|, t.signed)
                      else if memberSign(name).Some? then memberSign(name).value
                      else t.signed;
        r == Success(t.(signed := signed)) && encodedSymbols == old(encodedSymbols)[symbol := t.(signed := signed)]
    {
      if symbol !in encodedSymbols {
        return Failure(NullPointer);
      }
      var t := encodedSymbols[symbol];
      if IsHelperSymbol(symbol) {
        return Success(t);
      }
      var stripped := StripIndex(symbol);
      if stripped.None? {
        return Failure(IndexOutOfBounds);
      }
      var name := stripped.value;
      var matched := false;
      for i := 0 to |decls|
        invariant matched <==> exists j | 0 <= j < i :: decls[j].qualifiedName == name
        invariant t == old(encodedSymbols)[symbol].(signed := SignAfter(decls, name, i, old(encodedSymbols)[symbol].signed))
      {
        if decls[i].qualifiedName == name {
          matched := true;
          if decls[i].simpleUnsigned.Some? {
            t := t.(signed := !decls[i].simpleUnsigned.value);
          }
        }
      }
      if !matched {
        NoSimpleDeclarationKeepsSign(decls, name, |decls|, old(encodedSymbols)[symbol].signed);
        var sign := memberSign(name);
        if sign.Some? {
          t := t.(signed := sign.value);
        }
      }
      encodedSymbols := encodedSymbols[symbol := t];
      return Success(t);
    }
  }

  /** readSymbolEncoding over the lines of the file: each line is split and put into a
      fresh table; a malformed line or a conflicting repeated symbol fails the read. */
  method ReadSymbolEncoding(lines: seq<string>, parse: string -> FormulaType)
    returns (r: Result<SymbolEncoding, EncodingError>)
    ensures r.Success? <==> Loaded(lines, parse, |lines|).Success?
    ensures r.Success? ==> fresh(r.value) && Success(r.value.encodedSymbols) == Loaded(lines, parse, |lines|)
    ensures r.Failure? ==> r.error == Loaded(lines, parse, |lines|).error
  {
    var encoding := new SymbolEncoding();
    for n := 0 to |lines|
      invariant fresh(encoding)
      invariant Loaded(lines, parse, n) == Success(encoding.encodedSymbols)
    {
      LoadedStep(lines, parse, n, encoding.encodedSymbols);
      var entry := ReadLine(lines[n], parse);
      if entry.Failure? {
        FailureSticks(lines, parse, n + 1);
        return Failure(entry.error);
      }
      var put := encoding.Put(entry.value.0, entry.value.1);
      if put.Failure? {
        FailureSticks(lines, parse, n + 1);
        return Failure(put.error);
      }
    }
    return Success(encoding);
  }

  /** One more line read into the table read so far. */
  lemma LoadedStep(lines: seq<string>, parse: string -> FormulaType, n: nat, m: map<string, SymbolType>)
    requires n < |lines| && Loaded(lines, parse, n) == Success(m)
    ensures ReadLine(lines[n], parse).Failure? ==> Loaded(lines, parse, n + 1) == Failure(ReadLine(lines[n], parse).error)
    ensures ReadLine(lines[n], parse).Success? ==>
      var entry := ReadLine(lines[n], parse).value;
      Loaded(lines, parse, n + 1) == Inserted(m, entry.0, entry.1)
  {
  }

  /** A failing line fails the whole read with its error. */
  lemma {:induction false} FailureSticks(lines: seq<string>, parse: string -> FormulaType, n: nat)
    requires n <= |lines|
    ensures Loaded(lines, parse, n).Failure? ==> Loaded(lines, parse, |lines|) == Loaded(lines, parse, n)
    decreases |lines| - n
  {
    if n < |lines| {
      FailureSticks(lines, parse, n + 1);
    }
  }
}
