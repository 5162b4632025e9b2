/** What "slice n" of a rendered TIFF stack means to everybody who reads one
    (framework/contracts/slice_order.py). */
module SliceOrder {
  import opened Wrappers
  import opened Ordering
  import opened Text

  datatype DirEntry = DirEntry(name: string, isFile: bool)

  datatype SliceOrdering =
    | NUMERIC_STEM_ASCENDING | NUMERIC_STEM_CONTIGUOUS_ASCENDING | LEXICOGRAPHIC_FILENAME | EMPTY_TIFF_DIRECTORY

  datatype SliceError =
    | NO_SUFFIX | BAD_SUFFIX                                        // ValueError
    | EMPTY | MIXED | NOT_NUMERIC | AMBIGUOUS | NOT_CONTIGUOUS | MISSING  // SliceOrderError

  // ---- names ----

  /** The position of the last dot, or -1. */
  function LastDot(name: string): (i: int)
    ensures -1 <= i < |name|
    ensures i >= 0 ==> name[i] == '.'
    ensures forall j :: i < j < |name| ==> name[j] != '.'
  {
    if name == [] then -1
    else if name[|name|-1] == '.' then |name| - 1
    else LastDot(name[..|name|-1])
  }

  /** `Path.stem`: a leading or trailing dot is not an extension. */
  function Stem(name: string): string {
    var i := LastDot(name);
    if 0 < i < |name| - 1 then name[..i] else name
  }

  predicate Numeric(name: string) { Stem(name) != [] && AllDigits(Stem(name)) }

  function Value(name: string): nat { if Numeric(name) then ParseDigits(Stem(name)) else 0 }

  /** A numeric name is digits alone, or digits, a dot and an extension without
      another; its number is what the digits say. */
  lemma NumericMeans(name: string)
    ensures Numeric(name) <==> exists d, e: string :: Numbered(name, d, e)
    ensures forall d, e: string :: Numbered(name, d, e) ==> Value(name) == ParseDigits(d)
  {
    forall d, e: string | Numbered(name, d, e) ensures Numeric(name) && Stem(name) == d {
      if name != d {
        assert name[|d|] == '.' && name[..|d|] == d;
        assert forall j :: |d| < j < |name| ==> name[j] == e[j-|d|-1];
      } else {
        assert '.' !in name;
      }
    }
    if Numeric(name) {
      var i := LastDot(name);
      if 0 < i < |name| - 1 {
        assert name == name[..i] + "." + name[i+1..];
        assert Numbered(name, name[..i], name[i+1..]);
      } else {
        assert Numbered(name, name, "");
      }
    }
  }

  ghost predicate Numbered(name: string, d: string, e: string) {
    && d != "" && AllDigits(d) && '.' !in e
    && (name == d || (e != "" && name == d + "." + e))
  }

  predicate EndsWith(name: string, suffix: string) { |suffix| <= |name| && name[|name|-|suffix|..] == suffix }

  lemma EndsWithMeans(name: string, suffix: string)
    ensures EndsWith(name, suffix) <==> exists head: string :: name == head + suffix
  {
    if EndsWith(name, suffix) {
      assert name == name[..|name|-|suffix|] + suffix;
    }
    if head: string :| name == head + suffix {
      assert name[|name|-|suffix|..] == suffix;
    }
  }

  // ---- collecting ----

  ghost predicate Matched(dir: seq<DirEntry>, suffixes: seq<string>, name: string) {
    DirEntry(name, true) in dir && exists s :: s in suffixes && EndsWith(name, s)
  }

  predicate BadSuffix(s: string) { s == [] || s[0] != '.' }

  /** Every regular file under some suffix, once, in the order first met. */
  method Collect(dir: seq<DirEntry>, suffixes: seq<string>) returns (r: Result<seq<string>, SliceError>)
    ensures r == Err(NO_SUFFIX) <==> suffixes == []
    ensures r == Err(BAD_SUFFIX) <==> exists s :: s in suffixes && !("." <= s)
    ensures r.Err? ==> r.error == NO_SUFFIX || r.error == BAD_SUFFIX
    ensures r.Ok? ==> NoDuplicates(r.value) && forall name :: name in r.value <==> Matched(dir, suffixes, name)
  {
    if suffixes == [] {
      return Err(NO_SUFFIX);
    }
    var found: seq<string> := [];
    for i := 0 to |suffixes|
      invariant NoDuplicates(found) && forall s :: s in suffixes[..i] ==> "." <= s
      invariant forall name :: name in found <==> Matched(dir, suffixes[..i], name)
    {
      var suffix := suffixes[i];
      if BadSuffix(suffix) {
        assert !("." <= suffix) && suffix in suffixes;
        return Err(BAD_SUFFIX);
      }
      for j := 0 to |dir|
        invariant NoDuplicates(found)
        invariant forall name :: name in found <==>
          Matched(dir, suffixes[..i], name) || (DirEntry(name, true) in dir[..j] && EndsWith(name, suffix))
      {
        if dir[j].isFile && EndsWith(dir[j].name, suffix) && dir[j].name !in found {
          found := found + [dir[j].name];
        }
        assert dir[..j+1] == dir[..j] + [dir[j]];
      }
      assert dir[..|dir|] == dir;
      assert suffixes[..i+1] == suffixes[..i] + [suffix];
    }
    assert suffixes[..|suffixes|] == suffixes;
    r := Ok(found);
  }

  // ---- ordering ----

  predicate NumericLe(a: string, b: string) { Value(a) < Value(b) || (Value(a) == Value(b) && StrLe(a, b)) }

  lemma NumericOrder()
    ensures Preorder(NumericLe)
  {
    forall a, b ensures NumericLe(a, b) || NumericLe(b, a) { StrLeTotal(a, b); }
    forall a, b, c | NumericLe(a, b) && NumericLe(b, c) ensures NumericLe(a, c) {
      if Value(a) == Value(b) == Value(c) { StrLeTransitive(a, b, c); }
    }
  }

  function NumericCount(files: seq<string>): nat {
    if files == [] then 0 else NumericCount(files[..|files|-1]) + if Numeric(files[|files|-1]) then 1 else 0
  }

  function Values(files: seq<string>): seq<nat> { seq(|files|, i requires 0 <= i < |files| => Value(files[i])) }

  predicate Contiguous(s: seq<nat>) { forall i :: 0 < i < |s| ==> s[i] == s[i-1] + 1 }

  /** `ordered_tiff_files` on what was collected. */
  function Order(files: seq<string>, requireNumeric: bool, requireContiguous: bool, allowEmpty: bool)
    : Result<(seq<string>, SliceOrdering), SliceError>
  {
    if files == [] then
      if allowEmpty then Ok(([], EMPTY_TIFF_DIRECTORY)) else Err(EMPTY)
    else
      var n := NumericCount(files);
      if n != 0 && n != |files| then Err(MIXED)
      else if n == 0 then
        if requireNumeric then Err(NOT_NUMERIC) else Ok((Sort(StrLe, files), LEXICOGRAPHIC_FILENAME))
      else if !NoDuplicates(Values(files)) then Err(AMBIGUOUS)
      else
        var ordered := Sort(NumericLe, files);
        if requireContiguous then
          if Contiguous(Values(ordered)) then Ok((ordered, NUMERIC_STEM_CONTIGUOUS_ASCENDING)) else Err(NOT_CONTIGUOUS)
        else Ok((ordered, NUMERIC_STEM_ASCENDING))
  }

  method OrderedTiffFiles(dir: seq<DirEntry>, suffixes: seq<string>, requireNumeric: bool, requireContiguous: bool, allowEmpty: bool)
    returns (r: Result<(seq<string>, SliceOrdering), SliceError>, ghost files: seq<string>)
    ensures r == Err(NO_SUFFIX) <==> suffixes == []
    ensures r == Err(BAD_SUFFIX) <==> exists s :: s in suffixes && !("." <= s)
    ensures suffixes != [] && (forall s :: s in suffixes ==> "." <= s) ==>
      && NoDuplicates(files) && (forall name :: name in files <==> Matched(dir, suffixes, name))
      && r == Order(files, requireNumeric, requireContiguous, allowEmpty)
  {
    var collected := Collect(dir, suffixes);
    files := [];
    if collected.Err? {
      return Err(collected.error), files;
    }
    files := collected.value;
    r := Order(collected.value, requireNumeric, requireContiguous, allowEmpty);
  }

  ghost predicate SomeNumeric(files: seq<string>) { exists f :: f in files && Numeric(f) }

  ghost predicate Clashing(files: seq<string>) { exists i, j :: 0 <= i < j < |files| && Value(files[i]) == Value(files[j]) }

  /** A stack worth ordering by number: numeric throughout, and no number twice. */
  ghost predicate Clean(files: seq<string>) { files != [] && AllNumeric(files) && !Clashing(files) }

  ghost predicate Follows(r: Result<(seq<string>, SliceOrdering), SliceError>, policy: SliceOrdering) { r.Ok? && r.value.1 == policy }

  /** What ordering answers, in terms of the files alone. */
  lemma OrderWhen(files: seq<string>, requireNumeric: bool, requireContiguous: bool, allowEmpty: bool)
    ensures var r := Order(files, requireNumeric, requireContiguous, allowEmpty);
      && (r == Err(EMPTY) <==> files == [] && !allowEmpty)
      && (files == [] && allowEmpty ==> r == Ok(([], EMPTY_TIFF_DIRECTORY)))
      && (r == Err(MIXED) <==> SomeNumeric(files) && !AllNumeric(files))
      && (r == Err(NOT_NUMERIC) <==> files != [] && !SomeNumeric(files) && requireNumeric)
      && (Follows(r, LEXICOGRAPHIC_FILENAME) <==> files != [] && !SomeNumeric(files) && !requireNumeric)
      && (r == Err(AMBIGUOUS) <==> files != [] && AllNumeric(files) && Clashing(files))
      && (Follows(r, NUMERIC_STEM_ASCENDING) <==> Clean(files) && !requireContiguous)
      && (r == Err(NOT_CONTIGUOUS) || Follows(r, NUMERIC_STEM_CONTIGUOUS_ASCENDING) <==> Clean(files) && requireContiguous)
  {
    NumericCountMeans(files);
    ClashingMeans(files);
    assert files != [] ==> files[0] in files;
    hide Numeric, Value, Sort, Contiguous, NumericCount, Values, Clashing, NoDuplicates;
  }

  lemma ClashingMeans(files: seq<string>)
    ensures NoDuplicates(Values(files)) <==> !Clashing(files)
  {
    hide Value;
    assert forall i :: 0 <= i < |files| ==> Values(files)[i] == Value(files[i]);
  }

  /** A number between those of two of the files that is nobody's. */
  ghost predicate Gap(files: seq<string>, f: string, g: string, v: nat) {
    f in files && g in files && Value(f) < v < Value(g) && Absent(files, v)
  }

  ghost predicate Absent(files: seq<string>, v: nat) { forall h :: h in files ==> Value(h) != v }

  /** Contiguity is refused exactly when some number between two of the files is missing. */
  lemma NotContiguousWhen(files: seq<string>, requireNumeric: bool, allowEmpty: bool)
    requires files != [] && AllNumeric(files) && DistinctValues(files)
    ensures Order(files, requireNumeric, true, allowEmpty) == Err(NOT_CONTIGUOUS) <==> exists f, g, v: nat :: Gap(files, f, g, v)
  {
    var ordered := Sort(NumericLe, files);
    NumericCountMeans(files);
    ValuesDistinct(files);
    NumericOrder();
    SortSorted(NumericLe, files);
    SameElements(ordered, files);
    DistinctStaysDistinct(files, ordered);
    hide Sort, NumericCount, Value, Numeric, Gap, Contiguous, Values;
    forall i, j | 0 <= i < j < |ordered| ensures Value(ordered[i]) < Value(ordered[j]) {
      assert NumericLe(ordered[i], ordered[j]);
    }
    hide Sorted, Preorder, DistinctValues, AllNumeric;
    GapWhen(files, ordered);
  }

  lemma GapWhen(files: seq<string>, ordered: seq<string>)
    requires forall f :: f in files <==> f in ordered
    requires forall i, j :: 0 <= i < j < |ordered| ==> Value(ordered[i]) < Value(ordered[j])
    ensures !Contiguous(Values(ordered)) <==> exists f, g, v: nat :: Gap(files, f, g, v)
  {
    if Contiguous(Values(ordered)) {
      forall f, g, v: nat ensures !Gap(files, f, g, v) {
        if Gap(files, f, g, v) {
          var at := FillsGap(files, ordered, f, g, v);
          assert false;
        }
      }
    } else {
      var f, g, v := LeavesGap(files, ordered);
    }
  }

  lemma FillsGap(files: seq<string>, ordered: seq<string>, f: string, g: string, v: nat) returns (at: nat)
    requires Contiguous(Values(ordered)) && (forall h :: h in files <==> h in ordered)
    requires f in files && g in files && Value(f) < v < Value(g)
    ensures at < |ordered| && ordered[at] in files && Value(ordered[at]) == v
  {
    hide Value;
    var i :| 0 <= i < |ordered| && ordered[i] == f;
    var j :| 0 <= j < |ordered| && ordered[j] == g;
    StepsAddUp(ordered, i);
    StepsAddUp(ordered, j);
    at := v - Value(ordered[0]);
    StepsAddUp(ordered, at);
  }

  lemma LeavesGap(files: seq<string>, ordered: seq<string>) returns (f: string, g: string, v: nat)
    requires !Contiguous(Values(ordered)) && (forall h :: h in files <==> h in ordered)
    requires forall i, j :: 0 <= i < j < |ordered| ==> Value(ordered[i]) < Value(ordered[j])
    ensures Gap(files, f, g, v)
  {
    hide Value;
    var i :| 0 < i < |ordered| && Values(ordered)[i] != Values(ordered)[i-1] + 1;
    f, g, v := ordered[i-1], ordered[i], Value(ordered[i-1]) + 1;
    assert Value(f) < v < Value(g);
    forall h | h in files ensures Value(h) != v {
      var k :| 0 <= k < |ordered| && ordered[k] == h;
    }
  }

  ghost predicate AllNumeric(files: seq<string>) { forall f :: f in files ==> Numeric(f) }

  ghost predicate DistinctValues(files: seq<string>) {
    forall i, j :: 0 <= i < |files| && 0 <= j < |files| && Value(files[i]) == Value(files[j]) ==> i == j
  }

  lemma {:induction false} NumericCountMeans(files: seq<string>)
    ensures NumericCount(files) <= |files|
    ensures NumericCount(files) == |files| <==> AllNumeric(files)
    ensures NumericCount(files) == 0 <==> forall f :: f in files ==> !Numeric(f)
  {
    if files != [] {
      var front, last := files[..|files|-1], files[|files|-1];
      NumericCountMeans(front);
      assert files == front + [last];
      assert last in files;
      assert forall f :: f in front ==> f in files;
    }
  }

  lemma ValuesDistinct(files: seq<string>)
    ensures NoDuplicates(Values(files)) <==> DistinctValues(files)
  {
    assert forall i :: 0 <= i < |files| ==> Values(files)[i] == Value(files[i]);
    if NoDuplicates(Values(files)) {
      forall i, j | 0 <= i < |files| && 0 <= j < |files| && Value(files[i]) == Value(files[j]) ensures i == j {
        assert Values(files)[i] == Values(files)[j];
      }
    }
  }

  /** Distinctness is about the set of names, not the order they came in. */
  lemma DistinctValuesBySet(a: seq<string>, b: seq<string>)
    requires NoDuplicates(a) && NoDuplicates(b) && (forall f :: f in a <==> f in b)
    requires DistinctValues(a)
    ensures DistinctValues(b)
  {
    forall i, j | 0 <= i < |b| && 0 <= j < |b| && Value(b[i]) == Value(b[j]) ensures i == j {
      assert b[i] in a && b[j] in a;
      var p :| 0 <= p < |a| && a[p] == b[i];
      var q :| 0 <= q < |a| && a[q] == b[j];
      assert Value(a[p]) == Value(a[q]);
    }
  }

  lemma NumericStrict(files: seq<string>)
    requires DistinctValues(files)
    ensures Strict(NumericLe, files)
  {}

  /** The order, and whether there is one, do not depend on how the directory
      was enumerated. */
  lemma OrderIgnoresEnumeration(a: seq<string>, b: seq<string>, requireNumeric: bool, requireContiguous: bool, allowEmpty: bool)
    requires NoDuplicates(a) && NoDuplicates(b) && forall f :: f in a <==> f in b
    ensures Order(a, requireNumeric, requireContiguous, allowEmpty) == Order(b, requireNumeric, requireContiguous, allowEmpty)
  {
    SameCounts(a, b);
    SameSorts(a, b);
    hide NumericCount, Values, Sort, NoDuplicates, Contiguous;
  }

  lemma SameCounts(a: seq<string>, b: seq<string>)
    requires NoDuplicates(a) && NoDuplicates(b) && forall f :: f in a <==> f in b
    ensures |a| == |b|
    ensures NumericCount(a) == 0 <==> NumericCount(b) == 0
    ensures NumericCount(a) == |a| <==> NumericCount(b) == |b|
    ensures NoDuplicates(Values(a)) <==> NoDuplicates(Values(b))
  {
    SameSetSameMultiset(a, b);
    SameElements(a, b);
    hide Numeric, Value;
    NumericCountMeans(a);
    NumericCountMeans(b);
    NumericOrNot(a, b);
    ValuesDistinct(a);
    ValuesDistinct(b);
    if DistinctValues(a) {
      DistinctValuesBySet(a, b);
    }
    if DistinctValues(b) {
      DistinctValuesBySet(b, a);
    }
  }

  lemma SameSorts(a: seq<string>, b: seq<string>)
    requires NoDuplicates(a) && NoDuplicates(b) && forall f :: f in a <==> f in b
    ensures Sort(StrLe, a) == Sort(StrLe, b)
    ensures NoDuplicates(Values(a)) ==> Sort(NumericLe, a) == Sort(NumericLe, b)
  {
    SameSetSameMultiset(a, b);
    StrLeOrder();
    StrLeStrict(a);
    hide Strict, NoDuplicates, Preorder, Sort, Numeric, Value, StrLe;
    SortCanonical(StrLe, a, b);
    ValuesDistinct(a);
    if DistinctValues(a) {
      NumericOrder();
      NumericStrict(a);
      SortCanonical(NumericLe, a, b);
    }
  }

  lemma NumericOrNot(a: seq<string>, b: seq<string>)
    requires |a| == |b| && forall f :: f in a <==> f in b
    ensures AllNumeric(a) <==> AllNumeric(b)
    ensures (forall f :: f in a ==> !Numeric(f)) <==> (forall f :: f in b ==> !Numeric(f))
  {}

  ghost predicate IsNumericPolicy(p: SliceOrdering) {
    p == NUMERIC_STEM_ASCENDING || p == NUMERIC_STEM_CONTIGUOUS_ASCENDING
  }

  /** Under a numeric policy the stack is the collected files, ascending strictly by number. */
  lemma OrderAscends(files: seq<string>, requireNumeric: bool, requireContiguous: bool, allowEmpty: bool)
    requires var r := Order(files, requireNumeric, requireContiguous, allowEmpty);
      r.Ok? && IsNumericPolicy(r.value.1)
    ensures var ordered := Order(files, requireNumeric, requireContiguous, allowEmpty).value.0;
      && multiset(ordered) == multiset(files) && ordered != []
      && AllNumeric(files) && DistinctValues(files) && AllNumeric(ordered) && DistinctValues(ordered)
      && (forall i, j :: 0 <= i < j < |ordered| ==> Value(ordered[i]) < Value(ordered[j]))
      && (requireContiguous ==> forall i :: 0 <= i < |ordered| ==> Value(ordered[i]) == Value(ordered[0]) + i)
  {
    var ordered := Sort(NumericLe, files);
    NumericCountMeans(files);
    ValuesDistinct(files);
    NumericOrder();
    SortSorted(NumericLe, files);
    SameElements(ordered, files);
    DistinctStaysDistinct(files, ordered);
    forall i, j | 0 <= i < j < |ordered| ensures Value(ordered[i]) < Value(ordered[j]) {
      assert NumericLe(ordered[i], ordered[j]);
    }
    if requireContiguous {
      forall i | 0 <= i < |ordered| ensures Value(ordered[i]) == Value(ordered[0]) + i {
        StepsAddUp(ordered, i);
      }
    }
  }

  lemma DistinctStaysDistinct(files: seq<string>, ordered: seq<string>)
    requires DistinctValues(files) && multiset(ordered) == multiset(files)
    ensures DistinctValues(ordered)
  {
    SameElements(ordered, files);
    assert NoDuplicates(files);
    NoDuplicatesByCount(files, ordered);
    DistinctValuesBySet(files, ordered);
  }

  lemma {:induction false} StepsAddUp(ordered: seq<string>, i: nat)
    requires i < |ordered| && Contiguous(Values(ordered))
    ensures Value(ordered[i]) == Value(ordered[0]) + i
  {
    if i > 0 {
      StepsAddUp(ordered, i - 1);
      assert Values(ordered)[i] == Values(ordered)[i-1] + 1;
    }
  }

  /** Without a numeric stem the names themselves are sorted. */
  lemma LexicographicSorts(files: seq<string>, requireContiguous: bool, allowEmpty: bool)
    requires files != [] && forall f :: f in files ==> !Numeric(f)
    ensures var r := Order(files, false, requireContiguous, allowEmpty);
      r.Ok? && r.value.1 == LEXICOGRAPHIC_FILENAME && multiset(r.value.0) == multiset(files) && Sorted(StrLe, r.value.0)
  {
    NumericCountMeans(files);
    StrLeOrder();
    SortSorted(StrLe, files);
  }

  // ---- one slice by number ----

  function Lookup(files: seq<string>, index: int): Option<string> {
    if files == [] then None
    else if Value(files[|files|-1]) == index then Some(files[|files|-1])
    else Lookup(files[..|files|-1], index)
  }

  function Position(files: seq<string>, index: int): Option<nat> {
    if files == [] then None
    else if Value(files[|files|-1]) == index then Some(|files| - 1)
    else Position(files[..|files|-1], index)
  }

  lemma {:induction false} LookupMeans(files: seq<string>, index: int)
    ensures Lookup(files, index) == None <==> forall f :: f in files ==> Value(f) != index
    ensures Lookup(files, index).Some? ==> Lookup(files, index).value in files && Value(Lookup(files, index).value) == index
    ensures Position(files, index) == None <==> Lookup(files, index) == None
    ensures Position(files, index).Some? ==>
      Position(files, index).value < |files| && files[Position(files, index).value] == Lookup(files, index).value
  {
    if files != [] {
      var front, last := files[..|files|-1], files[|files|-1];
      LookupMeans(front, index);
      assert files == front + [last];
      assert last in files;
    }
  }

  ghost predicate Addressable(files: seq<string>) { AllNumeric(files) && DistinctValues(files) }

  /** `resolve_tiff_slice` on what was collected. */
  method ResolveSlice(files: seq<string>, index: int) returns (r: Result<string, SliceError>)
    ensures r == Err(EMPTY) <==> files == []
    ensures files != [] && Addressable(files) ==>
      r == if Lookup(files, index).Some? then Ok(Lookup(files, index).value) else Err(MISSING)
    ensures files != [] && !Addressable(files) ==> r == Err(NOT_NUMERIC) || r == Err(AMBIGUOUS)
    ensures r == Err(NOT_NUMERIC) ==> !AllNumeric(files)
    ensures r == Err(AMBIGUOUS) ==> !DistinctValues(files)
  {
    hide Value, Numeric;
    if files == [] {
      return Err(EMPTY);
    }
    var numeric: map<int, string> := map[];
    for i := 0 to |files|
      invariant forall k :: 0 <= k < i ==> Numeric(files[k]) && Value(files[k]) in numeric
      invariant forall k, l :: 0 <= k < i && 0 <= l < i && Value(files[k]) == Value(files[l]) ==> k == l
      invariant forall v :: v in numeric ==> Lookup(files[..i], v) == Some(numeric[v])
      invariant forall v :: v !in numeric ==> Lookup(files[..i], v) == None
    {
      var path := files[i];
      assert path in files && files[..i+1][..i] == files[..i];
      if !Numeric(path) {
        return Err(NOT_NUMERIC);
      }
      var value := Value(path);
      if value in numeric {
        LookupMeans(files[..i], value);
        return Err(AMBIGUOUS);
      }
      numeric := numeric[value := path];
    }
    assert files[..|files|] == files;
    assert Addressable(files);
    if index !in numeric {
      return Err(MISSING);
    }
    r := Ok(numeric[index]);
  }

  /** `ordered_tiff_stack_position`. */
  method StackPosition(files: seq<string>, index: int) returns (r: Result<nat, SliceError>)
    ensures Addressable(files) ==>
      r == if Position(files, index).Some? then Ok(Position(files, index).value) else Err(MISSING)
    ensures !Addressable(files) ==> r == Err(NOT_NUMERIC) || r == Err(AMBIGUOUS)
    ensures r == Err(NOT_NUMERIC) ==> !AllNumeric(files)
    ensures r == Err(AMBIGUOUS) ==> !DistinctValues(files)
  {
    hide Value, Numeric;
    var positions: map<int, nat> := map[];
    for i := 0 to |files|
      invariant forall k :: 0 <= k < i ==> Numeric(files[k]) && Value(files[k]) in positions
      invariant forall k, l :: 0 <= k < i && 0 <= l < i && Value(files[k]) == Value(files[l]) ==> k == l
      invariant forall v :: v in positions ==> Position(files[..i], v) == Some(positions[v])
      invariant forall v :: v !in positions ==> Position(files[..i], v) == None
    {
      var path := files[i];
      assert path in files && files[..i+1][..i] == files[..i];
      if !Numeric(path) {
        return Err(NOT_NUMERIC);
      }
      var value := Value(path);
      if value in positions {
        LookupMeans(files[..i], value);
        return Err(AMBIGUOUS);
      }
      positions := positions[value := i];
    }
    assert files[..|files|] == files;
    assert Addressable(files);
    if index !in positions {
      return Err(MISSING);
    }
    r := Ok(positions[index]);
  }

  /** The two ways to ask for a slice agree on every index: they fail together,
      and otherwise the stack holds at the one's position what the other names. */
  lemma ResolveAgreesWithPosition(files: seq<string>, requireNumeric: bool, requireContiguous: bool, allowEmpty: bool, index: int)
    requires var r := Order(files, requireNumeric, requireContiguous, allowEmpty);
      r.Ok? && IsNumericPolicy(r.value.1)
    ensures var ordered := Order(files, requireNumeric, requireContiguous, allowEmpty).value.0;
      && Addressable(files) && Addressable(ordered) && files != []
      && (Lookup(files, index).Some? <==> Position(ordered, index).Some?)
      && (Position(ordered, index).Some? ==>
            Position(ordered, index).value < |ordered|
            && ordered[Position(ordered, index).value] == Lookup(files, index).value)
  {
    var ordered := Order(files, requireNumeric, requireContiguous, allowEmpty).value.0;
    OrderAscends(files, requireNumeric, requireContiguous, allowEmpty);
    SameElements(ordered, files);
    LookupMeans(files, index);
    LookupMeans(ordered, index);
    if Lookup(files, index).Some? {
      var f, g := Lookup(files, index).value, Lookup(ordered, index).value;
      assert f in files && g in files;
      var i :| 0 <= i < |files| && files[i] == f;
      var j :| 0 <= j < |files| && files[j] == g;
      assert Value(files[i]) == Value(files[j]);
    }
  }

  /** In a contiguous stack slice n sits n minus the first number from the top. */
  lemma ContiguousPosition(files: seq<string>, requireNumeric: bool, allowEmpty: bool, index: int)
    requires Order(files, requireNumeric, true, allowEmpty).Ok?
    requires Order(files, requireNumeric, true, allowEmpty).value.1 == NUMERIC_STEM_CONTIGUOUS_ASCENDING
    ensures var ordered := Order(files, requireNumeric, true, allowEmpty).value.0;
      ordered != [] && var first := Value(ordered[0]);
      Position(ordered, index) == if first <= index < first + |ordered| then Some(index - first) else None
  {
    hide *;
    var ordered := Order(files, requireNumeric, true, allowEmpty).value.0;
    OrderAscends(files, requireNumeric, true, allowEmpty);
    ConsecutivePosition(ordered, index);
  }

  lemma ConsecutivePosition(ordered: seq<string>, index: int)
    requires ordered != [] && forall i :: 0 <= i < |ordered| ==> Value(ordered[i]) == Value(ordered[0]) + i
    ensures var first := Value(ordered[0]);
      Position(ordered, index) == if first <= index < first + |ordered| then Some(index - first) else None
  {
    hide Value;
    LookupMeans(ordered, index);
    var first := Value(ordered[0]);
    if first <= index < first + |ordered| {
      assert ordered[index - first] in ordered && Value(ordered[index - first]) == index;
    }
  }

  // ---- the external inventory check ----

  datatype Inventory = Inventory(files: int, keys: seq<Option<string>>, sliceIndices: seq<int>, sliceOrdering: string)

  predicate IntLe(a: int, b: int) { a <= b }

  /** `set(...)` */
  function Distinct(s: seq<int>): set<int> { set x | x in s }

  function UpTo(n: nat): seq<int> { seq(n, i => i) }

  /** A bare `digits.tif`. */
  predicate TiffKey(key: string) {
    && '/' !in key && EndsWith(key, ".tif") && |key| > 4 && AllDigits(key[..|key|-4])
  }

  /** `_exact_numeric_tiff_inventory`. */
  method ExactNumericTiffInventory(value: Inventory, expected: nat) returns (ok: bool)
    ensures ok <==> Exact(value, expected)
  {
    if value.files != expected || |value.keys| != expected {
      return false;
    }
    var indices: seq<int> := [];
    for i := 0 to |value.keys|
      invariant forall k :: 0 <= k < i ==> value.keys[k].Some? && TiffKey(value.keys[k].value)
      invariant |indices| == i && forall k :: 0 <= k < i ==> indices[k] == ParseDigits(StemDigits(value.keys[k].value))
    {
      if value.keys[i].None? || !TiffKey(value.keys[i].value) {
        return false;
      }
      indices := indices + [ParseDigits(StemDigits(value.keys[i].value))];
    }
    assert indices == Indices(value.keys);
    ok := Sort(IntLe, indices) == UpTo(expected)
       && |Distinct(indices)| == expected
       && value.sliceIndices == UpTo(expected)
       && value.sliceOrdering == "NUMERIC_STEM_CONTIGUOUS_ASCENDING";
  }

  function StemDigits(key: string): string
    requires TiffKey(key)
  {
    key[..|key|-4]
  }

  function Indices(keys: seq<Option<string>>): seq<int>
    requires forall k :: 0 <= k < |keys| ==> keys[k].Some? && TiffKey(keys[k].value)
  {
    seq(|keys|, k requires 0 <= k < |keys| => ParseDigits(StemDigits(keys[k].value)))
  }

  predicate Exact(value: Inventory, expected: nat) {
    && value.files == expected && |value.keys| == expected
    && (forall k :: 0 <= k < |value.keys| ==> value.keys[k].Some? && TiffKey(value.keys[k].value))
    && Sort(IntLe, Indices(value.keys)) == UpTo(expected)
    && |Distinct(Indices(value.keys))| == expected
    && value.sliceIndices == UpTo(expected)
    && value.sliceOrdering == "NUMERIC_STEM_CONTIGUOUS_ASCENDING"
  }

  /** A bare digit name under .tif, and nothing else. */
  lemma TiffKeyMeans(key: string)
    ensures TiffKey(key) <==> exists d: string :: d != "" && AllDigits(d) && key == d + ".tif"
  {
    if TiffKey(key) {
      assert key == key[..|key|-4] + ".tif";
    }
    if d: string :| d != "" && AllDigits(d) && key == d + ".tif" {
      assert key[|key|-4..] == ".tif" && key[..|key|-4] == d;
      forall i | 0 <= i < |key| ensures key[i] != '/' {
        if i < |d| { assert key[i] == d[i] && IsDigit(d[i]); } else { assert key[i] == ".tif"[i-|d|]; }
      }
    }
  }

  /** An inventory is exact when its names carry each number from zero up exactly
      once, and it lists those numbers in order under the contiguous policy. */
  lemma ExactMeans(value: Inventory, expected: nat)
    ensures Exact(value, expected) <==>
      && value.files == expected && |value.keys| == expected
      && (forall k :: 0 <= k < |value.keys| ==> value.keys[k].Some? && TiffKey(value.keys[k].value))
      && (forall i :: 0 <= i < expected ==> i in Indices(value.keys))
      && |value.sliceIndices| == expected && (forall i :: 0 <= i < expected ==> value.sliceIndices[i] == i)
      && value.sliceOrdering == "NUMERIC_STEM_CONTIGUOUS_ASCENDING"
  {
    if |value.keys| == expected && forall k :: 0 <= k < |value.keys| ==> value.keys[k].Some? && TiffKey(value.keys[k].value) {
      NumbersOnce(Indices(value.keys), expected);
    }
    hide TiffKey, Indices, Sort;
  }

  /** So many numbers are zero up to there in order exactly when none of those is missing. */
  lemma NumbersOnce(s: seq<int>, n: nat)
    requires |s| == n
    ensures Sort(IntLe, s) == UpTo(n) && |Distinct(s)| == n <==> forall i :: 0 <= i < n ==> i in s
  {
    SameElements(Sort(IntLe, s), s);
    hide Sort, Distinct;
    if Sort(IntLe, s) == UpTo(n) {
      forall i | 0 <= i < n ensures i in s {
        assert Sort(IntLe, s)[i] == i && i in Sort(IntLe, s);
      }
    }
    if forall i :: 0 <= i < n ==> i in s {
      AllOnce(s, n);
    }
  }

  lemma AllOnce(s: seq<int>, n: nat)
    requires |s| == n && forall i :: 0 <= i < n ==> i in s
    ensures Sort(IntLe, s) == UpTo(n) && |Distinct(s)| == n
  {
    UpToSize(n);
    DistinctAtMost(s);
    assert Distinct(UpTo(n)) <= Distinct(s) by {
      forall x | x in UpTo(n) ensures x in s {}
    }
    SubsetSize(Distinct(UpTo(n)), Distinct(s));
    DistinctOnce(s);
    DistinctOnce(UpTo(n));
    forall x ensures x in s <==> x in UpTo(n) {
      assert x in s <==> x in Distinct(s);
      assert x in UpTo(n) <==> x in Distinct(UpTo(n));
    }
    SameSetSameMultiset(s, UpTo(n));
    SortSorted(IntLe, s);
    SortedUnique(IntLe, UpTo(n), Sort(IntLe, s));
  }

  lemma {:induction false} UpToSize(n: nat)
    ensures |Distinct(UpTo(n))| == n
  {
    if n > 0 {
      UpToSize(n - 1);
      assert UpTo(n) == UpTo(n - 1) + [n - 1];
      assert Distinct(UpTo(n)) == Distinct(UpTo(n - 1)) + {n - 1};
    }
  }

  lemma {:induction false} DistinctAtMost(s: seq<int>)
    ensures |Distinct(s)| <= |s|
  {
    if s != [] {
      DistinctAtMost(s[1..]);
      assert s == [s[0]] + s[1..];
      assert Distinct(s) == Distinct(s[1..]) + {s[0]};
    }
  }

  lemma SubsetSize(a: set<int>, b: set<int>)
    requires a <= b
    ensures |a| <= |b|
    ensures |a| == |b| ==> a == b
  {
    assert b == a + (b - a);
    if |a| == |b| { assert b - a == {}; }
  }

  lemma {:induction false} DistinctOnce(s: seq<int>)
    requires |Distinct(s)| == |s|
    ensures NoDuplicates(s)
  {
    if s != [] {
      DistinctAtMost(s[1..]);
      assert s == [s[0]] + s[1..];
      assert Distinct(s) == Distinct(s[1..]) + {s[0]};
      DistinctOnce(s[1..]);
    }
  }

  lemma TiffStem(key: string)
    requires TiffKey(key)
    ensures Stem(key) == StemDigits(key) && Numeric(key) && Value(key) == ParseDigits(StemDigits(key))
  {
    var n := |key| - 4;
    assert key[n..] == ".tif";
    assert key[n] == key[n..][0] && key[n+1] == key[n..][1] && key[n+2] == key[n..][2] && key[n+3] == key[n..][3];
    var i := LastDot(key);
    assert i == n;
  }

  function Names(keys: seq<Option<string>>): seq<string>
    requires forall k :: 0 <= k < |keys| ==> keys[k].Some?
  {
    seq(|keys|, k requires 0 <= k < |keys| => keys[k].value)
  }

  /** A directory holding exactly an accepted inventory orders so that slice i
      sits at position i, and asking for slice i finds that file. */
  lemma InventoryOrders(value: Inventory, expected: nat)
    requires Exact(value, expected) && expected > 0
    ensures var files := Names(value.keys);
      var r := Order(files, true, true, false);
      && NoDuplicates(files) && r.Ok? && r.value.1 == NUMERIC_STEM_CONTIGUOUS_ASCENDING
      && |r.value.0| == expected
      && forall i :: 0 <= i < expected ==>
           Value(r.value.0[i]) == i && Position(r.value.0, i) == Some(i) && Lookup(files, i) == Some(r.value.0[i])
  {
    var files := Names(value.keys);
    InventoryValues(value, expected);
    hide Exact, Value, Numeric, Names;
    NumericCountMeans(files);
    ValuesDistinct(files);
    var ordered := Sort(NumericLe, files);
    InventorySorted(files, expected);
    hide Sort, NoDuplicates, DistinctValues, AllNumeric, Values;
    assert Order(files, true, true, false) == Ok((ordered, NUMERIC_STEM_CONTIGUOUS_ASCENDING));
    forall i | 0 <= i < expected
      ensures Value(ordered[i]) == i && Position(ordered, i) == Some(i) && Lookup(files, i) == Some(ordered[i])
    {
      ConsecutivePosition(ordered, i);
      ResolveAgreesWithPosition(files, true, true, false, i);
    }
  }

  lemma InventorySorted(files: seq<string>, n: nat)
    requires |files| == n && DistinctValues(files) && forall f :: f in files ==> Value(f) < n
    ensures var ordered := Sort(NumericLe, files);
      |ordered| == n && Contiguous(Values(ordered)) && forall i :: 0 <= i < n ==> Value(ordered[i]) == i
  {
    var ordered := Sort(NumericLe, files);
    hide Value;
    NumericOrder();
    SortSorted(NumericLe, files);
    SameElements(ordered, files);
    DistinctStaysDistinct(files, ordered);
    AscendingValues(ordered, n);
  }

  lemma InventoryValues(value: Inventory, expected: nat)
    requires Exact(value, expected)
    ensures var files := Names(value.keys);
      && |files| == expected && NoDuplicates(files) && AllNumeric(files) && DistinctValues(files)
      && forall f :: f in files ==> Value(f) < expected
  {
    var files, indices := Names(value.keys), Indices(value.keys);
    IndicesCount(indices, expected);
    hide Exact, Value, Numeric, StemDigits, Sort;
    forall k | 0 <= k < |files| ensures Numeric(files[k]) && Value(files[k]) == indices[k] {
      TiffStem(value.keys[k].value);
    }
    hide *;
    ValuesFollow(files, indices, expected);
  }

  lemma ValuesFollow(files: seq<string>, indices: seq<int>, n: nat)
    requires |files| == |indices| == n && forall k :: 0 <= k < n ==> Numeric(files[k]) && Value(files[k]) == indices[k]
    requires forall k :: 0 <= k < n ==> 0 <= indices[k] < n
    requires forall i, j :: 0 <= i < n && 0 <= j < n && indices[i] == indices[j] ==> i == j
    ensures NoDuplicates(files) && AllNumeric(files) && DistinctValues(files) && forall f :: f in files ==> Value(f) < n
  {
    hide Value, Numeric;
    forall i, j | 0 <= i < j < n ensures files[i] != files[j] {
      assert indices[i] != indices[j];
    }
  }

  lemma IndicesCount(indices: seq<int>, n: nat)
    requires Sort(IntLe, indices) == UpTo(n)
    ensures |indices| == n && (forall k :: 0 <= k < n ==> 0 <= indices[k] < n)
    ensures forall i, j :: 0 <= i < n && 0 <= j < n && indices[i] == indices[j] ==> i == j
  {
    UpToMeans(n);
    hide Sort, UpTo;
    SameElements(UpTo(n), indices);
    NoDuplicatesByCount(UpTo(n), indices);
    hide *;
    forall k | 0 <= k < n ensures 0 <= indices[k] < n {
      assert indices[k] in indices;
    }
  }

  lemma UpToMeans(n: nat)
    ensures |UpTo(n)| == n && NoDuplicates(UpTo(n)) && forall x: int :: x in UpTo(n) ==> 0 <= x < n
  {}

  /** Distinct numbers below n, sorted, are 0, 1, ..., n-1. */
  lemma AscendingValues(ordered: seq<string>, n: nat)
    requires |ordered| == n && Sorted(NumericLe, ordered) && DistinctValues(ordered)
    requires forall f :: f in ordered ==> Value(f) < n
    ensures forall i :: 0 <= i < n ==> Value(ordered[i]) == i
    ensures Contiguous(Values(ordered))
  {
    forall i | 0 <= i < n ensures Value(ordered[i]) == i {
      AtLeast(ordered, i);
      AtMost(ordered, i, n);
    }
  }

  lemma {:induction false} AtLeast(ordered: seq<string>, i: nat)
    requires i < |ordered| && Sorted(NumericLe, ordered) && DistinctValues(ordered)
    ensures Value(ordered[i]) >= i
  {
    if i > 0 {
      AtLeast(ordered, i - 1);
      assert NumericLe(ordered[i-1], ordered[i]);
    }
  }

  lemma {:induction false} AtMost(ordered: seq<string>, i: nat, n: nat)
    requires i < |ordered| == n && Sorted(NumericLe, ordered) && DistinctValues(ordered)
    requires forall f :: f in ordered ==> Value(f) < n
    ensures Value(ordered[i]) <= i
    decreases n - i
  {
    assert ordered[i] in ordered;
    if i + 1 < n {
      AtMost(ordered, i + 1, n);
      assert NumericLe(ordered[i], ordered[i+1]);
    }
  }
}
