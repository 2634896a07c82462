/** The three pieces of Ruby's core library that the plan reconciliation leans on:
    `String#split` with a one-character separator, `Array#join` and `Array#-`. */
module RubyCore {

  /** Every field of `s` between occurrences of `sep`, empty fields included, in
      order. This is what `String#split` computes before it drops trailing empty
      fields; there is always at least one field. */
  function Fields(s: string, sep: char): (r: seq<string>)
    ensures |r| >= 1
    ensures forall i :: 0 <= i < |r| ==> sep !in r[i]
    decreases |s|
  {
    if s == [] then [""]
    else
      var rest := Fields(s[1..], sep);
      if s[0] == sep then [""] + rest
      else [[s[0]] + rest[0]] + rest[1..]
  }

  /** `fields` without its trailing empty strings. */
  function DropTrailingEmpty(fields: seq<string>): (r: seq<string>)
    ensures r <= fields
    ensures r == [] || r[|r| - 1] != ""
    ensures forall i :: |r| <= i < |fields| ==> fields[i] == ""
    decreases |fields|
  {
    if fields != [] && fields[|fields| - 1] == "" then DropTrailingEmpty(fields[..|fields| - 1])
    else fields
  }

  /** Ruby's `s.split(sep)` for a one-character, non-blank separator: the fields of
      `s`, interior empty fields kept, trailing empty fields dropped. */
  function Split(s: string, sep: char): (r: seq<string>)
    ensures r <= Fields(s, sep)
    ensures r == [] || r[|r| - 1] != ""
    ensures forall i :: |r| <= i < |Fields(s, sep)| ==> Fields(s, sep)[i] == ""
    ensures forall i :: 0 <= i < |r| ==> sep !in r[i]
  {
    DropTrailingEmpty(Fields(s, sep))
  }

  /** The summed length of all parts. */
  function TotalLength(parts: seq<string>): nat
  {
    if parts == [] then 0 else |parts[0]| + TotalLength(parts[1..])
  }

  /** Ruby's `parts.join(sep)`: the parts in order, with `sep` between neighbours. */
  function Join(parts: seq<string>, sep: string): (s: string)
    ensures |s| == TotalLength(parts) + (if parts == [] then 0 else (|parts| - 1) * |sep|)
  {
    if parts == [] then ""
    else if |parts| == 1 then parts[0]
    else parts[0] + sep + Join(parts[1..], sep)
  }

  /** Ruby's `a - b`: the elements of `a` that do not occur in `b`, in the order of
      `a`, with repetitions kept. */
  function Difference(a: seq<string>, b: seq<string>): (r: seq<string>)
    ensures |r| <= |a|
    ensures forall i :: 0 <= i < |r| ==> r[i] in a && r[i] !in b
    decreases |a|
  {
    if a == [] then []
    else (if a[0] in b then [] else [a[0]]) + Difference(a[1..], b)
  }

  /** `a - b` holds exactly the elements of `a` that are not in `b`. */
  lemma {:induction false} DifferenceMembers(a: seq<string>, b: seq<string>)
    ensures forall x :: x in Difference(a, b) <==> x in a && x !in b
    decreases |a|
  {
    if a != [] {
      DifferenceMembers(a[1..], b);
      assert forall x :: x in a <==> x == a[0] || x in a[1..];
    }
  }

  /** `Array#-` keeps repetitions: an element outside `b` occurs in `a - b` exactly
      as often as in `a`. */
  lemma {:induction false} DifferenceCount(a: seq<string>, b: seq<string>, x: string)
    ensures multiset(Difference(a, b))[x] == if x in b then 0 else multiset(a)[x]
    decreases |a|
  {
    if a != [] {
      assert a == [a[0]] + a[1..];
      DifferenceCount(a[1..], b, x);
    }
  }

  /** Joining the fields of a string with their separator gives the string back. */
  lemma {:induction false} JoinFields(s: string, sep: char)
    ensures Join(Fields(s, sep), [sep]) == s
    decreases |s|
  {
    if s != [] {
      JoinFields(s[1..], sep);
      var rest := Fields(s[1..], sep);
      if s[0] != sep && |rest| > 1 {
        assert Join(rest, [sep]) == rest[0] + [sep] + Join(rest[1..], [sep]);
      }
    }
  }

  /** Splitting `w + t` where `w` holds no separator glues `w` onto the first field of `t`. */
  lemma {:induction false} FieldsPrepend(w: string, t: string, sep: char)
    requires sep !in w
    ensures Fields(w + t, sep) == [w + Fields(t, sep)[0]] + Fields(t, sep)[1..]
    decreases |w|
  {
    if w != [] {
      assert (w + t)[0] == w[0] && (w + t)[1..] == w[1..] + t;
      FieldsPrepend(w[1..], t, sep);
      assert [w[0]] + (w[1..] + Fields(t, sep)[0]) == w + Fields(t, sep)[0];
    } else {
      var f := Fields(t, sep);
      assert w + t == t && w + f[0] == f[0];
      assert f == [f[0]] + f[1..];
    }
  }

  /** Fields are the inverse of joining: joining non-empty-list parts that hold no
      separator and splitting the result again yields every part back. */
  lemma {:induction false} FieldsJoin(parts: seq<string>, sep: char)
    requires parts != []
    requires forall i :: 0 <= i < |parts| ==> sep !in parts[i]
    ensures Fields(Join(parts, [sep]), sep) == parts
    decreases |parts|
  {
    if |parts| == 1 {
      FieldsPrepend(parts[0], "", sep);
      assert parts[0] + "" == parts[0];
    } else {
      var t := Join(parts[1..], [sep]);
      FieldsJoin(parts[1..], sep);
      assert Join(parts, [sep]) == parts[0] + ([sep] + t);
      FieldsPrepend(parts[0], [sep] + t, sep);
      assert ([sep] + t)[1..] == t;
      assert parts[0] + "" == parts[0];
      assert parts == [parts[0]] + parts[1..];
    }
  }

  /** A separator at the end of a string adds one trailing empty field. */
  lemma {:induction false} FieldsAppendSeparator(s: string, sep: char)
    ensures Fields(s + [sep], sep) == Fields(s, sep) + [""]
    decreases |s|
  {
    if s != [] {
      assert (s + [sep])[0] == s[0] && (s + [sep])[1..] == s[1..] + [sep];
      FieldsAppendSeparator(s[1..], sep);
    }
  }

  /** Writing names one per line, each line ended by the separator, and splitting the
      text again yields the names, provided that no name holds the separator and the
      last name is not empty (a trailing empty name cannot survive `split`). */
  lemma SplitLines(names: seq<string>, sep: char)
    requires forall i :: 0 <= i < |names| ==> sep !in names[i]
    requires names == [] || names[|names| - 1] != ""
    ensures Split(Join(names, [sep]) + [sep], sep) == names
  {
    var text := Join(names, [sep]);
    FieldsAppendSeparator(text, sep);
    if names == [] {
      assert Fields(text, sep) == [""];
      assert Fields(text + [sep], sep) == ["", ""];
      assert DropTrailingEmpty(["", ""]) == DropTrailingEmpty([""]);
      assert DropTrailingEmpty([""]) == DropTrailingEmpty([]);
    } else {
      FieldsJoin(names, sep);
      assert (names + [""])[..|names|] == names;
    }
  }

  /** `Array#-` distributes over concatenation, so it keeps the order of its left operand. */
  lemma {:induction false} DifferenceConcat(a1: seq<string>, a2: seq<string>, b: seq<string>)
    ensures Difference(a1 + a2, b) == Difference(a1, b) + Difference(a2, b)
    decreases |a1|
  {
    if a1 != [] {
      var head := if a1[0] in b then [] else [a1[0]];
      assert (a1 + a2)[0] == a1[0] && (a1 + a2)[1..] == a1[1..] + a2;
      assert Difference(a1 + a2, b) == head + Difference(a1[1..] + a2, b);
      DifferenceConcat(a1[1..], a2, b);
      assert Difference(a1, b) == head + Difference(a1[1..], b);
    } else {
      assert a1 + a2 == a2;
    }
  }

  /** `a - b` is empty exactly when every element of `a` occurs in `b`. */
  lemma {:induction false} DifferenceEmpty(a: seq<string>, b: seq<string>)
    ensures Difference(a, b) == [] <==> forall x :: x in a ==> x in b
    decreases |a|
  {
    if a != [] {
      DifferenceEmpty(a[1..], b);
      assert forall x :: x in a <==> x == a[0] || x in a[1..];
    }
  }

  /** Removing what `a` does not contain leaves `a` as it is. */
  lemma {:induction false} DifferenceDisjoint(a: seq<string>, b: seq<string>)
    requires forall i :: 0 <= i < |a| ==> a[i] !in b
    ensures Difference(a, b) == a
    decreases |a|
  {
    if a != [] {
      DifferenceDisjoint(a[1..], b);
    }
  }

  /** Nothing is left of a list once the list itself is removed from it. */
  lemma DifferenceSelf(a: seq<string>)
    ensures Difference(a, a) == []
  {
    DifferenceEmpty(a, a);
  }

  /** Removing a middle part from a list whose other elements lie outside it leaves
      the parts around it, in order. */
  lemma DifferenceAroundMiddle(s: seq<string>, head: seq<string>, middle: seq<string>, tail: seq<string>)
    requires s == head + middle + tail
    requires forall i :: 0 <= i < |head| ==> head[i] !in middle
    requires forall i :: 0 <= i < |tail| ==> tail[i] !in middle
    ensures Difference(s, middle) == head + tail
  {
    DifferenceDisjoint(head, middle);
    DifferenceDisjoint(tail, middle);
    DifferenceSelf(middle);
    DifferenceConcat(head, middle, middle);
    assert Difference(head + middle, middle) == head;
    DifferenceConcat(head + middle, tail, middle);
  }

  /** Two lists with the same elements have empty differences in both directions. */
  lemma SameElementsNoDifference(a: seq<string>, b: seq<string>)
    requires forall x :: x in a <==> x in b
    ensures Difference(a, b) == [] && Difference(b, a) == []
  {
    DifferenceEmpty(a, b);
    DifferenceEmpty(b, a);
  }
}
