/**
 * database/validator.go: turning validation failures and PostgreSQL
 * constraint violations into snake_case field -> message maps. The
 * validator library's rule evaluation is an input (its list of field
 * errors); the violation codes and messages, defined outside this file,
 * are parameters.
 */
module Validator {
  import opened Wrappers
  import opened Driver
  import GoStrings
  import Utils

  /** One validator.FieldError: the field's name, the failed tag and its parameter. */
  datatype FieldError = FieldError(field: string, actualTag: string, param: string)

  /** The message ValidateStruct stores: "tag: param", or the bare tag when there is no parameter. */
  function Message(e: FieldError): string
  {
    if e.param != "" then e.actualTag + ": " + e.param else e.actualTag
  }

  function Key(e: FieldError): string
  {
    Utils.ToSnakeCase(e.field)
  }

  /** The map after the first n field errors: each one (re)writes its field's entry. */
  function StructErrors(list: seq<FieldError>, n: nat): map<string, string>
    requires n <= |list|
  {
    if n == 0 then map[] else StructErrors(list, n - 1)[Key(list[n - 1]) := Message(list[n - 1])]
  }

  /**
   * ValidateStruct, given what validate.Struct returned (none, or its list of
   * field errors): one entry per erring field, and the error handed back as is.
   */
  method ValidateStruct(verr: Option<seq<FieldError>>) returns (errors: map<string, string>, err: Option<seq<FieldError>>)
    ensures err == verr
    ensures verr.None? ==> errors == map[]
    ensures verr.Some? ==> errors == StructErrors(verr.value, |verr.value|)
  {
    errors := map[];
    if verr.Some? {
      var list := verr.value;
      for i := 0 to |list|
        invariant errors == StructErrors(list, i)
      {
        var e := list[i];
        if e.param != "" {
          errors := errors[Utils.ToSnakeCase(e.field) := e.actualTag + ": " + e.param];
        } else {
          errors := errors[Utils.ToSnakeCase(e.field) := e.actualTag];
        }
      }
    }
    err := verr;
  }

  /** The keys are exactly the erring fields' snake_case names. */
  lemma {:induction false} StructErrorsKeys(list: seq<FieldError>, n: nat)
    requires n <= |list|
    ensures forall k :: k in StructErrors(list, n) <==> exists i :: 0 <= i < n && Key(list[i]) == k
  {
    if n > 0 {
      StructErrorsKeys(list, n - 1);
      var prev := StructErrors(list, n - 1);
      var m := StructErrors(list, n);
      assert m == prev[Key(list[n - 1]) := Message(list[n - 1])];
      forall k ensures k in m <==> exists i :: 0 <= i < n && Key(list[i]) == k {
        if k in m && k != Key(list[n - 1]) {
          assert k in prev;
          var i :| 0 <= i < n - 1 && Key(list[i]) == k;
          assert 0 <= i < n && Key(list[i]) == k;
        }
      }
    }
  }

  /** A field's entry holds the message of its last error: later errors for the same key overwrite earlier ones. */
  lemma {:induction false} StructErrorsLastWins(list: seq<FieldError>, n: nat, i: nat)
    requires i < n <= |list|
    requires forall j :: i < j < n ==> Key(list[j]) != Key(list[i])
    ensures Key(list[i]) in StructErrors(list, n) && StructErrors(list, n)[Key(list[i])] == Message(list[i])
  {
    if i < n - 1 {
      StructErrorsLastWins(list, n - 1, i);
    }
  }

  /** A struct field as ValidateConstraint sees it: its name and its `unique` and `foreign` tags, when present. */
  datatype StructField = StructField(name: string, unique: Option<string>, foreign: Option<string>)

  /** The constraint tag entries ValidateConstraint collects for one field. */
  datatype Tag = Tag(name: string, constraint: string)

  /** The violation codes and messages the mapper is configured with. */
  datatype Codes = Codes(uniqueViolation: string, foreignKeyViolation: string, uniqueError: string, notExistsError: string)

  /** constraintErrors' message: chosen by the SQLSTATE code, unique violation first, and "" for any other code. */
  function CodeMessage(code: string, codes: Codes): (msg: string)
    ensures code == codes.uniqueViolation ==> msg == codes.uniqueError
    ensures code != codes.uniqueViolation && code == codes.foreignKeyViolation ==> msg == codes.notExistsError
    ensures code != codes.uniqueViolation && code != codes.foreignKeyViolation ==> msg == ""
  {
    if code == codes.uniqueViolation then codes.uniqueError
    else if code == codes.foreignKeyViolation then codes.notExistsError
    else ""
  }

  /** constraintErrors: every collected tag writes the same entry, so any tag at all sets it. */
  method ConstraintErrors(field: StructField, code: string, codes: Codes, tags: seq<Tag>, errs: map<string, string>)
    returns (r: map<string, string>)
    ensures r == if tags == [] then errs else errs[Utils.ToSnakeCase(field.name) := CodeMessage(code, codes)]
  {
    r := errs;
    for i := 0 to |tags|
      invariant r == if i == 0 then errs else errs[Utils.ToSnakeCase(field.name) := CodeMessage(code, codes)]
    {
      var msg := "";
      if code == codes.uniqueViolation {
        msg := codes.uniqueError;
      } else if code == codes.foreignKeyViolation {
        msg := codes.notExistsError;
      }
      r := r[Utils.ToSnakeCase(field.name) := msg];
    }
  }

  function Count(pieces: seq<string>, s: string): nat
  {
    if pieces == [] then 0 else Count(pieces[..|pieces| - 1], s) + (if pieces[|pieces| - 1] == s then 1 else 0)
  }

  /** Splitting the matched unique tag on "," yields the constraint itself once, unless the name holds a comma. */
  lemma UniquePieces(c: string)
    ensures Count(GoStrings.Split(c, ','), c) == if ',' in c then 0 else 1
  {
    if ',' in c {
      NoPieceIs(GoStrings.Split(c, ','), c);
    } else {
      GoStrings.SplitNoSep(c, ',');
      assert [c][..0] == [];
    }
  }

  lemma {:induction false} NoPieceIs(pieces: seq<string>, c: string)
    requires ',' in c && forall i :: 0 <= i < |pieces| ==> ',' !in pieces[i]
    ensures Count(pieces, c) == 0
  {
    if pieces != [] {
      NoPieceIs(pieces[..|pieces| - 1], c);
    }
  }

  /** The unique-tag entries of one field: one per piece of its tag equal to the constraint, when the whole tag equals it. */
  method UniqueTags(field: StructField, constraint: string) returns (tags: seq<Tag>)
    ensures forall k :: 0 <= k < |tags| ==> tags[k] == Tag("unique", constraint)
    ensures |tags| == if field.unique == Some(constraint) && ',' !in constraint then 1 else 0
  {
    tags := [];
    if field.unique.Some? && field.unique.value == constraint {
      var uTags := GoStrings.Split(field.unique.value, ',');
      for j := 0 to |uTags|
        invariant forall k :: 0 <= k < |tags| ==> tags[k] == Tag("unique", constraint)
        invariant |tags| == Count(uTags[..j], constraint)
      {
        assert uTags[..j + 1][..j] == uTags[..j];
        if uTags[j] == constraint {
          tags := tags + [Tag("unique", constraint)];
        }
      }
      assert uTags[..|uTags|] == uTags;
      UniquePieces(constraint);
    }
  }

  /** A field gets an entry when its unique tag is the constraint (and the name has no comma), or its foreign tag is. */
  predicate Matches(f: StructField, constraint: string)
  {
    (f.unique == Some(constraint) && ',' !in constraint) || f.foreign == Some(constraint)
  }

  /** The map after the first n fields. */
  function ConstraintMap(fields: seq<StructField>, constraint: string, msg: string, n: nat): map<string, string>
    requires n <= |fields|
  {
    if n == 0 then map[]
    else
      var m := ConstraintMap(fields, constraint, msg, n - 1);
      if Matches(fields[n - 1], constraint) then m[Utils.ToSnakeCase(fields[n - 1].name) := msg] else m
  }

  /**
   * ValidateConstraint: only a PostgreSQL error is examined; each field's
   * matching tags are collected and written out through constraintErrors,
   * once after the unique tag and again after the foreign one. The error is
   * handed back as is.
   */
  method ValidateConstraint(err: Option<DbError>, fields: seq<StructField>, codes: Codes)
    returns (errs: map<string, string>, err': Option<DbError>)
    ensures err' == err
    ensures !(err.Some? && err.value.PqError?) ==> errs == map[]
    ensures err.Some? && err.value.PqError? ==>
      errs == ConstraintMap(fields, err.value.constraint, CodeMessage(err.value.code, codes), |fields|)
  {
    errs := map[];
    if err.Some? && err.value.PqError? {
      var pgerr := err.value;
      for i := 0 to |fields|
        invariant errs == ConstraintMap(fields, pgerr.constraint, CodeMessage(pgerr.code, codes), i)
      {
        var field := fields[i];
        var tags := UniqueTags(field, pgerr.constraint);
        errs := ConstraintErrors(field, pgerr.code, codes, tags, errs);
        if field.foreign.Some? && field.foreign.value == pgerr.constraint {
          tags := tags + [Tag("foreign", pgerr.constraint)];
        }
        errs := ConstraintErrors(field, pgerr.code, codes, tags, errs);
      }
    }
    err' := err;
  }

  /** The keys are exactly the matching fields' snake_case names, all carrying the code's message. */
  lemma {:induction false} ConstraintMapMeaning(fields: seq<StructField>, constraint: string, msg: string, n: nat)
    requires n <= |fields|
    ensures forall k :: k in ConstraintMap(fields, constraint, msg, n) <==>
      exists i :: 0 <= i < n && Matches(fields[i], constraint) && Utils.ToSnakeCase(fields[i].name) == k
    ensures forall k :: k in ConstraintMap(fields, constraint, msg, n) ==> ConstraintMap(fields, constraint, msg, n)[k] == msg
  {
    if n > 0 {
      ConstraintMapMeaning(fields, constraint, msg, n - 1);
      var prev := ConstraintMap(fields, constraint, msg, n - 1);
      var m := ConstraintMap(fields, constraint, msg, n);
      var f := fields[n - 1];
      assert m == if Matches(f, constraint) then prev[Utils.ToSnakeCase(f.name) := msg] else prev;
      forall k ensures k in m <==> exists i :: 0 <= i < n && Matches(fields[i], constraint) && Utils.ToSnakeCase(fields[i].name) == k {
        if k in m && !(Matches(f, constraint) && Utils.ToSnakeCase(f.name) == k) {
          assert k in prev;
          var i :| 0 <= i < n - 1 && Matches(fields[i], constraint) && Utils.ToSnakeCase(fields[i].name) == k;
          assert 0 <= i < n;
        }
      }
    }
  }

  /** A constraint whose name contains a comma is only ever reported through a foreign tag. */
  lemma CommaConstraintOnlyForeign(f: StructField, constraint: string)
    requires ',' in constraint
    ensures Matches(f, constraint) <==> f.foreign == Some(constraint)
  {
  }
}
