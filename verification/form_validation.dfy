/** `useFormValidation`'s `validate` (hooks/useFormValidation.ts): the fold
    from schema issues to the field-error map. */
module FormValidation {
  import opened Strings

  /** One element of an issue path: an object key or an array index. */
  datatype PathSegment = Key(name: string) | Index(index: nat)

  datatype Issue = Issue(path: seq<PathSegment>, message: string)

  /** How `schema.parse` ended: it returned, threw a schema error with its
      issues, or threw something else. */
  datatype ParseOutcome = Parsed | SchemaFailure(issues: seq<Issue>) | OtherFailure

  function SegmentText(p: PathSegment): string {
    match p
    case Key(name) => name
    case Index(i) => NatToString(i)
  }

  /** `path.join(".")`. */
  function PathKey(path: seq<PathSegment>): string {
    Join(seq(|path|, i requires 0 <= i < |path| => SegmentText(path[i])), ".")
  }

  /** Issue `j` contributes an entry under `key`. */
  predicate Keyed(issues: seq<Issue>, j: int, key: string) {
    0 <= j < |issues| && |issues[j].path| > 0 && PathKey(issues[j].path) == key
  }

  /** Issue `j` is the last issue keyed under `key`. */
  predicate LastKeyed(issues: seq<Issue>, j: int, key: string) {
    Keyed(issues, j, key) && forall j' :: j < j' < |issues| ==> !Keyed(issues, j', key)
  }

  /** Some issue contributes an entry under `key`. */
  predicate HasKey(issues: seq<Issue>, key: string) {
    exists j :: 0 <= j < |issues| && Keyed(issues, j, key)
  }

  /** The `forEach` over the issues, in order: each issue with a non-empty
      path writes its message under the joined path, overwriting earlier ones. */
  function CollectErrors(issues: seq<Issue>): (m: map<string, string>)
    // every entry comes from some issue's path
    ensures forall key :: key in m ==> HasKey(issues, key)
    decreases |issues|
  {
    if |issues| == 0 then map[]
    else
      var prefix := issues[..|issues| - 1];
      var last := issues[|issues| - 1];
      var m := CollectErrors(prefix);
      assert forall key :: HasKey(prefix, key) ==> HasKey(issues, key) by {
        forall key | HasKey(prefix, key) ensures HasKey(issues, key) {
          var j :| 0 <= j < |prefix| && Keyed(prefix, j, key);
          assert 0 <= j < |issues|;
          assert prefix[j] == issues[j];
          assert Keyed(issues, j, key);
        }
      }
      if |last.path| > 0 then
        assert Keyed(issues, |issues| - 1, PathKey(last.path));
        m[PathKey(last.path) := last.message]
      else m
  }

  /** The map holds exactly the keys of the issues with a non-empty path, and
      under each key the message of the last such issue. */
  lemma {:induction false} CollectErrorsLastWins(issues: seq<Issue>)
    ensures forall key :: key in CollectErrors(issues) <==> HasKey(issues, key)
    ensures forall key :: key in CollectErrors(issues) ==>
      exists j :: LastKeyed(issues, j, key) && CollectErrors(issues)[key] == issues[j].message
    decreases |issues|
  {
    if |issues| > 0 {
      var n := |issues|;
      var prefix := issues[..n - 1];
      var last := issues[n - 1];
      var m := CollectErrors(prefix);
      CollectErrorsLastWins(prefix);
      forall key
        ensures key in CollectErrors(issues) <==> HasKey(issues, key)
        ensures key in CollectErrors(issues) ==>
          exists j :: LastKeyed(issues, j, key) && CollectErrors(issues)[key] == issues[j].message
      {
        if |last.path| > 0 && PathKey(last.path) == key {
          assert LastKeyed(issues, n - 1, key);
        } else {
          assert !Keyed(issues, n - 1, key);
          if HasKey(issues, key) {
            var j :| 0 <= j < n && Keyed(issues, j, key);
            assert j < n - 1 && prefix[j] == issues[j];
            assert Keyed(prefix, j, key);
          }
          if key in m {
            var j :| 0 <= j < n - 1 && LastKeyed(prefix, j, key) && m[key] == prefix[j].message;
            assert prefix[j] == issues[j];
            forall j' | j < j' < n ensures !Keyed(issues, j', key) {
              if j' < n - 1 {
                assert prefix[j'] == issues[j'] && !Keyed(prefix, j', key);
              }
            }
            assert LastKeyed(issues, j, key);
          }
        }
      }
    }
  }

  datatype Validation = Validation(ok: bool, errors: map<string, string>)

  /** `validate`, given the error map before the call. */
  function Validate(previous: map<string, string>, outcome: ParseOutcome): (v: Validation)
    ensures v.ok <==> outcome.Parsed?
    ensures outcome.Parsed? ==> v.errors == map[]
    ensures outcome.SchemaFailure? ==> v.errors == CollectErrors(outcome.issues)
    // a throw that is not a schema error leaves the previous errors on screen
    ensures outcome.OtherFailure? ==> v.errors == previous
  {
    match outcome
    case Parsed => Validation(true, map[])
    case SchemaFailure(issues) => Validation(false, CollectErrors(issues))
    case OtherFailure => Validation(false, previous)
  }

  /** Two issues on the same field: the later message is the one shown, and a
      form-level issue (empty path) adds nothing. */
  lemma LaterIssueWins(field: string, first: string, second: string, formLevel: string)
    ensures CollectErrors([Issue([Key(field)], first), Issue([], formLevel), Issue([Key(field)], second)]) == map[field := second]
  {
    var issues := [Issue([Key(field)], first), Issue([], formLevel), Issue([Key(field)], second)];
    assert PathKey([Key(field)]) == field;
    assert issues[..2][..1] == [issues[0]];
    assert issues[..2] == [issues[0], issues[1]];
  }

  /** Nested paths are joined with dots, array indices in decimal. */
  lemma NestedPathKey()
    ensures PathKey([Key("items"), Index(12), Key("name")]) == "items.12.name"
  {
    var path := [Key("items"), Index(12), Key("name")];
    var texts := seq(|path|, i requires 0 <= i < |path| => SegmentText(path[i]));
    TwelveInDecimal();
    assert texts == ["items", "12", "name"];
    JoinThree("items", "12", "name", ".");
  }

  lemma TwelveInDecimal()
    ensures NatToString(12) == "12"
  {
    assert DigitChar(1) == '1' && DigitChar(2) == '2';
  }

  lemma JoinThree(a: string, b: string, c: string, sep: string)
    ensures Join([a, b, c], sep) == a + sep + b + sep + c
  {
    assert [a, b, c][1..] == [b, c];
    assert [b, c][1..] == [c];
    assert Join([b, c], sep) == b + sep + c;
    assert a + sep + (b + sep + c) == a + sep + b + sep + c;
  }
}
