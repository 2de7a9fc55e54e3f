/** The number of local slots each procedure declares: `proc.name.N` and `export.name.N` lines. */
module ProcLocals {
  import opened Common
  import opened Text

  const U16_RANGE := 0x1_0000

  datatype Declaration = Declaration(name: string, locals: nat)

  /** What a line declares; without a 16-bit count it declares nothing. */
  function DeclarationOf(line: string): Option<Declaration> {
    DeclarationOfTrimmed(Trim(line))
  }

  function DeclarationOfTrimmed(trimmed: string): Option<Declaration> {
    if !HasPrefix(trimmed, "proc.") && !HasPrefix(trimmed, "export.") then None
    else
      var parts := Split(trimmed, '.');
      if |parts| < 3 then None
      else
        var locals := ParseUnsigned(parts[2], 10, U16_RANGE);
        if locals.None? then None else Some(Declaration(parts[1], locals.value))
  }

  predicate Declares(line: string, name: string) {
    DeclarationOf(line).Some? && DeclarationOf(line).value.name == name
  }

  /** Line `i` is the last to declare its procedure. */
  predicate DeclaresLast(lines: seq<string>, i: nat)
    requires i < |lines|
  {
    DeclarationOf(lines[i]).Some? && forall j :: i < j < |lines| ==> !Declares(lines[j], DeclarationOf(lines[i]).value.name)
  }

  /** Exactly the declared procedures are listed, each with its last count. */
  ghost predicate IsLocalTable(lines: seq<string>, table: map<string, nat>) {
    && (forall name :: name in table ==> exists i :: 0 <= i < |lines| && Declares(lines[i], name))
    && (forall i :: 0 <= i < |lines| && DeclaresLast(lines, i) ==>
          var d := DeclarationOf(lines[i]).value;
          d.name in table && table[d.name] == d.locals)
  }

  lemma TableNext(lines: seq<string>, line: string, table: map<string, nat>)
    requires IsLocalTable(lines, table)
    ensures var d := DeclarationOf(line);
            IsLocalTable(lines + [line], if d.None? then table else table[d.value.name := d.value.locals])
  {
    hide DeclarationOf;
    var more := lines + [line];
    assert more[|lines|] == line && forall i :: 0 <= i < |lines| ==> more[i] == lines[i];
    var d := DeclarationOf(line);
    var next := if d.None? then table else table[d.value.name := d.value.locals];
    forall i | 0 <= i < |more| && DeclaresLast(more, i)
      ensures var e := DeclarationOf(more[i]).value; e.name in next && next[e.name] == e.locals
    {
      if i < |lines| {
        assert DeclaresLast(lines, i);
        assert !Declares(more[|lines|], DeclarationOf(more[i]).value.name);
      }
    }
    forall name | name in next
      ensures exists i :: 0 <= i < |more| && Declares(more[i], name)
    {
      if name in table {
        var i :| 0 <= i < |lines| && Declares(lines[i], name);
        assert Declares(more[i], name);
      } else {
        assert Declares(more[|lines|], name);
      }
    }
  }

  /** A declared procedure has a last declaration, so the table is determined by the lines. */
  lemma {:induction false} LastDeclaration(lines: seq<string>, i: nat, name: string) returns (last: nat)
    requires i < |lines| && Declares(lines[i], name)
    ensures i <= last < |lines| && DeclaresLast(lines, last) && Declares(lines[last], name)
    decreases |lines| - i
  {
    hide DeclarationOf;
    if DeclaresLast(lines, i) {
      last := i;
    } else {
      var j :| i < j < |lines| && Declares(lines[j], name);
      last := LastDeclaration(lines, j, name);
    }
  }

  lemma LocalTableUnique(lines: seq<string>, t1: map<string, nat>, t2: map<string, nat>)
    requires IsLocalTable(lines, t1) && IsLocalTable(lines, t2)
    ensures t1 == t2
  {
    hide DeclarationOf;
    forall name | name in t1 || name in t2
      ensures name in t1 && name in t2 && t1[name] == t2[name]
    {
      var i :| 0 <= i < |lines| && Declares(lines[i], name);
      var last := LastDeclaration(lines, i, name);
    }
  }

  method ParseProcLocals(source: string) returns (table: map<string, nat>)
    ensures IsLocalTable(Lines(source), table)
  {
    hide IsLocalTable, Lines;
    var lines := Lines(source);
    table := map[];
    EmptyTable();
    for i := 0 to |lines|
      invariant IsLocalTable(lines[..i], table)
    {
      TableNext(lines[..i], lines[i], table);
      assert lines[..i + 1] == lines[..i] + [lines[i]];
      var trimmed := Trim(lines[i]);
      if HasPrefix(trimmed, "proc.") || HasPrefix(trimmed, "export.") {
        var parts := Split(trimmed, '.');
        if |parts| >= 3 {
          var numLocals := ParseUnsigned(parts[2], 10, U16_RANGE);
          if numLocals.Some? {
            table := table[parts[1] := numLocals.value];
          }
        }
      }
    }
    assert lines[..|lines|] == lines;
  }

  lemma EmptyTable()
    ensures IsLocalTable([], map[])
  {
  }
}
