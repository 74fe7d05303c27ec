/** The string operations behind type names: `str.rpartition`, the
    `'%s.%s'` format of a qualified name, and Python's identifier rule. */
module Names {

  /** `s.rpartition(sep)`: what stands before the last `sep`, the separator
      itself, and what follows it; `("", "", s)` when `sep` does not occur. */
  function RPartition(s: string, sep: char): (r: (string, string, string))
    ensures sep in s ==> r.1 == [sep] && r.0 + [sep] + r.2 == s && sep !in r.2
    ensures sep !in s ==> r == ("", "", s)
  {
    if s == [] then ("", "", "")
    else
      var n := |s| - 1;
      assert s == s[..n] + [s[n]];
      if s[n] == sep then (s[..n], [sep], "")
      else
        var r := RPartition(s[..n], sep);
        if r.1 == "" then ("", "", s) else (r.0, r.1, r.2 + [s[n]])
  }

  /** `'%s.%s' % (module, name)` */
  function QualifiedName(moduleName: string, name: string): (r: string)
    ensures |r| == |moduleName| + 1 + |name| && r[|moduleName|] == '.'
  {
    moduleName + "." + name
  }

  /** Splitting a name at its last dot and joining the halves with `'%s.%s'`
      gives the name back when it holds a dot, and `"." + name` otherwise. */
  lemma SplitThenQualify(full: string)
    ensures var r := RPartition(full, '.');
      QualifiedName(r.0, r.2) == if '.' in full then full else "." + full
  {
  }

  /** Qualifying a dotless name and splitting the result at its last dot
      gives back the module and the name. */
  lemma {:induction false} QualifyThenSplit(moduleName: string, name: string)
    requires '.' !in name
    ensures RPartition(QualifiedName(moduleName, name), '.') == (moduleName, ".", name)
  {
    var s := QualifiedName(moduleName, name);
    if name != [] {
      var n := |name| - 1;
      assert s[..|s| - 1] == QualifiedName(moduleName, name[..n]);
      QualifyThenSplit(moduleName, name[..n]);
      RPartitionStep(s, '.');
      assert name[..n] + [name[n]] == name;
    } else {
      assert s[..|s| - 1] == moduleName;
    }
  }

  /** A last character other than the separator joins the tail of the
      partition of what precedes it. */
  lemma RPartitionStep(s: string, sep: char)
    requires s != [] && s[|s| - 1] != sep
    ensures var r := RPartition(s[..|s| - 1], sep);
      r.1 != "" ==> RPartition(s, sep) == (r.0, r.1, r.2 + [s[|s| - 1]])
  {
  }

  predicate IsIdentifierStart(c: char) {
    ('a' <= c <= 'z') || ('A' <= c <= 'Z') || c == '_' || c as int >= 128
  }

  predicate IsIdentifierPart(c: char) {
    IsIdentifierStart(c) || ('0' <= c <= '9')
  }

  /** `s.isidentifier()`, with every non-ASCII character admitted. */
  predicate IsIdentifier(s: string) {
    |s| > 0 && IsIdentifierStart(s[0]) && forall i :: 1 <= i < |s| ==> IsIdentifierPart(s[i])
  }
}
