/**
 * `yuy remove`: add up the sizes of the entries directly in the model's
 * directory, ask for confirmation, and remove the directory with everything
 * below it. The name is not checked against the known models.
 */
module Remove {
  import opened Wrappers
  import opened Text
  import opened Paths
  import opened Errors
  import opened Store
  import opened Machine
  import opened Config

  datatype RemoveOutcome =
    | NotDownloaded          // nothing by that name in the models directory
    | Cancelled(size: nat)   // the answer was not "y": nothing removed
    | Removed(freed: nat)    // the directory is gone; `freed` is the size shown before asking

  /** The answer that confirms: trimmed and lower-cased, it is "y". */
  predicate Confirms(input: string) {
    Lower(Trim(input)) == "y"
  }

  /** Exactly "y" and "Y", with any white space around them, confirm. */
  lemma ConfirmRule(input: string)
    ensures Confirms(input) <==> Trim(input) == "y" || Trim(input) == "Y"
  {
    LowerIsY(Trim(input));
  }

  lemma ConfirmExamples()
    ensures Confirms(" y \n") && Confirms("Y\n")
    ensures !Confirms("yes\n") && !Confirms("\n")
  {
    assert Trim(" " + "y" + " \n") == "y" by { TrimPadded(" ", "y", " \n"); }
    assert " " + "y" + " \n" == " y \n";
    assert Trim("" + "Y" + "\n") == "Y" by { TrimPadded("", "Y", "\n"); }
    assert "" + "Y" + "\n" == "Y\n";
    assert Trim("" + "yes" + "\n") == "yes" by { TrimPadded("", "yes", "\n"); }
    assert "" + "yes" + "\n" == "yes\n";
    assert Trim("" + "" + "\n") == "" by { TrimPadded("", "", "\n"); }
    assert "" + "" + "\n" == "\n";
    ConfirmRule(" y \n");
    ConfirmRule("Y\n");
    ConfirmRule("yes\n");
    ConfirmRule("\n");
  }

  /** `remove::execute` on a given tree, with the line typed at the prompt. */
  ghost function RemoveIn(t: Tree, home: Option<Path>, name: string, input: string)
    : (out: (Result<RemoveOutcome, Error>, Tree))
    requires WellFormed(t)
    ensures WellFormed(out.1)
    ensures out.0.Ok? && !out.0.value.Removed? ==> out.1 == ModelsDirIn(t, home).1
    ensures out.0.Ok? && out.0.value.Removed? ==> Confirms(input)
  {
    var (models, t1) := ModelsDirIn(t, home);
    if models.Err? then (Err(models.error), t1)
    else
      match Resolve(t1, models.value, name)
      case None => (Ok(NotDownloaded), t1)
      case Some(dir) =>
        if !Exists(t1, dir) then (Ok(NotDownloaded), t1)
        else if !IsDir(t1, dir) then (Err(CannotRead(dir)), t1)
        else if !Confirms(input) then (Ok(Cancelled(DirSize(t1, dir))), t1)
        else if RmdirRefused(dir, name) then (Err(CannotRemove(dir)), ClearTree(t1, dir))
        else (Ok(Removed(DirSize(t1, dir))), RemoveTree(t1, dir))
  }

  /**
   * Only a confirmed removal of a directory found by the lookup changes the tree
   * (beyond creating the models directory). It removes exactly that directory's
   * subtree and frees the size shown before asking, unless the system refuses
   * the final `rmdir`: then the directory is emptied and the command fails.
   * An answer that does not confirm cancels, reporting the size shown.
   */
  lemma RemoveEffect(t: Tree, home: Option<Path>, name: string, input: string)
    requires WellFormed(t)
    ensures var (r, t') := RemoveIn(t, home, name, input);
            var (models, t1) := ModelsDirIn(t, home);
            var dir := if models.Ok? then Resolve(t1, models.value, name) else None;
            (r.Ok? && r.value.Removed? <==> dir.Some? && IsDir(t1, dir.value) && Confirms(input) && !RmdirRefused(dir.value, name))
            && (r.Ok? && r.value.Removed? ==>
                  r.value.freed == DirSize(t1, dir.value)
                  && (forall q :: q in t' <==> q in t1 && !Within(q, dir.value))
                  && (forall q :: q in t' ==> t'[q] == t1[q]))
            && (dir.Some? && IsDir(t1, dir.value) && Confirms(input) && RmdirRefused(dir.value, name) ==>
                  r == Err(CannotRemove(dir.value)) && t' == ClearTree(t1, dir.value))
            && (dir.Some? && IsDir(t1, dir.value) && !Confirms(input) ==>
                  r == Ok(Cancelled(DirSize(t1, dir.value))))
            && (!(dir.Some? && IsDir(t1, dir.value) && Confirms(input)) ==> t' == t1)
  {
    var (models, t1) := ModelsDirIn(t, home);
    if models.Ok? {
      var dir := Resolve(t1, models.value, name);
      if dir.Some? {
        var d := dir.value;
        if IsDir(t1, d) && Confirms(input) {
          if RmdirRefused(d, name) {
            assert RemoveIn(t, home, name, input) == (Err(CannotRemove(d)), ClearTree(t1, d));
          } else {
            assert RemoveIn(t, home, name, input) == (Ok(Removed(DirSize(t1, d))), RemoveTree(t1, d));
          }
        } else {
          assert RemoveIn(t, home, name, input).1 == t1;
        }
      } else {
        assert RemoveIn(t, home, name, input) == (Ok(NotDownloaded), t1);
      }
    }
  }

  /**
   * Whatever the name, when the lookup finds nothing on disk the command
   * succeeds with "not downloaded" and changes nothing beyond
   * `get_models_dir`.
   */
  lemma RemoveNotFound(t: Tree, home: Option<Path>, name: string, input: string)
    requires WellFormed(t)
    ensures var (models, t1) := ModelsDirIn(t, home);
            var (r, t') := RemoveIn(t, home, name, input);
            models.Ok? && !ExistsAt(t1, models.value, name) ==> r == Ok(NotDownloaded) && t' == t1
  {
  }

  /**
   * A plain model name that is not on disk is not an error and nothing is
   * removed; on a first run only the base and models directories are made.
   */
  lemma RemoveMissing(t: Tree, home: Option<Path>, name: string, input: string)
    requires WellFormed(t) && home.Some? && IsPlainName(name)
    requires !Exists(t, ModelsDir(home.value) + [name])
    ensures var (models, t1) := ModelsDirIn(t, home);
            var (r, t') := RemoveIn(t, home, name, input);
            t' == t1 && (models.Ok? ==> r == Ok(NotDownloaded))
  {
    var (models, t1) := ModelsDirIn(t, home);
    if models.Ok? {
      var dir := ModelsDir(home.value) + [name];
      ResolvePlain(t1, models.value, name);
      ModelsDirKeeps(t, home);
      assert !Within(ModelsDir(home.value), dir);
      assert !Exists(t1, dir);
      RemoveNotFound(t, home, name, input);
    }
  }

  /**
   * "<name>/.." through a model directory that is not there names nothing, so
   * nothing is removed: the lookup does not climb back out of a missing
   * component.
   */
  lemma RemoveThroughMissing(t: Tree, home: Option<Path>, name: string, input: string)
    requires WellFormed(t) && home.Some? && IsPlainName(name)
    requires !Exists(t, ModelsDir(home.value) + [name])
    ensures var (models, t1) := ModelsDirIn(t, home);
            var (r, t') := RemoveIn(t, home, name + "/..", input);
            t' == t1 && (models.Ok? ==> r == Ok(NotDownloaded))
  {
    var (models, t1) := ModelsDirIn(t, home);
    if models.Ok? {
      var dir := ModelsDir(home.value) + [name];
      ModelsDirKeeps(t, home);
      assert !Within(ModelsDir(home.value), dir);
      assert !IsDir(t1, dir);
      ResolveThroughMissing(t1, models.value, name);
    }
  }

  /** Removing one model leaves every other model's directory and its contents as they were. */
  lemma RemoveSparesSiblings(t: Tree, home: Option<Path>, name: string, other: string, input: string)
    requires WellFormed(t) && home.Some?
    requires IsPlainName(name) && IsPlainName(other) && name != other
    ensures var (_, t') := RemoveIn(t, home, name, input);
            var (_, t1) := ModelsDirIn(t, home);
            var sibling := ModelsDir(home.value) + [other];
            forall q :: Within(q, sibling) ==> (q in t' <==> q in t1) && (q in t' ==> t'[q] == t1[q])
  {
    var (models, t1) := ModelsDirIn(t, home);
    RemoveEffect(t, home, name, input);
    if models.Ok? {
      ResolvePlain(t1, models.value, name);
      var dir := models.value + [name];
      var sibling := models.value + [other];
      assert forall q :: Within(q, sibling) ==> !Within(q, dir) by {
        forall q | Within(q, sibling) ensures !Within(q, dir) {
          assert q[|models.value|] == sibling[|models.value|] == other;
          assert dir[|models.value|] == name;
        }
      }
      assert !RmdirRefused(dir, name) by {
        SplitNoSeparator(name);
        assert Split(name) == [name];
      }
    }
  }

  /**
   * The name is joined unchecked, so ".." names the base directory: a confirmed
   * `remove ..` empties `~/.yuuki`, taking the configuration and every model,
   * before the system refuses to remove the directory through "..". (When
   * `models` is a file, "models/.." names nothing.)
   */
  lemma RemoveParentTakesConfig(t: Tree, home: Option<Path>, input: string)
    requires WellFormed(t) && home.Some? && Confirms(input)
    ensures var (models, t1) := ModelsDirIn(t, home);
            var (r, t') := RemoveIn(t, home, "..", input);
            models.Ok? && IsDir(t1, models.value)
            ==> r == Err(CannotRemove(YuukiDir(home.value)))
                           && ConfigPath(home.value) !in t' && ModelsDir(home.value) !in t'
                           && Exists(t', YuukiDir(home.value))
  {
    var (models, t1) := ModelsDirIn(t, home);
    if models.Ok? && IsDir(t1, models.value) {
      var m := ModelsDir(home.value);
      assert Split("..") == [".."] by { SplitNoSeparator(".."); }
      assert Resolve(t1, m, "..") == ResolveSteps(t1, m, [".."]);
      assert IsDir(t1, m) && m != [] && Parent(m) == YuukiDir(home.value);
      assert ResolveSteps(t1, m, [".."]) == ResolveSteps(t1, Parent(m), [".."][1..]);
      assert Resolve(t1, m, "..") == Some(YuukiDir(home.value));
      assert LastNamed([".."]) == "..";
      assert Within(ConfigPath(home.value), YuukiDir(home.value));
      assert Within(m, YuukiDir(home.value));
    }
  }

  /** `remove::execute`. */
  method Execute(h: Host, name: string, input: string) returns (r: Result<RemoveOutcome, Error>)
    requires h.Valid()
    modifies h`tree
    ensures h.Valid()
    ensures (r, h.tree) == RemoveIn(old(h.tree), h.home, name, input)
  {
    var models := GetModelsDir(h);
    if models.Err? {
      return Err(models.error);
    }
    var found := Resolve(h.tree, models.value, name);
    if found.None? || !Exists(h.tree, found.value) {
      return Ok(NotDownloaded);
    }
    var dir := found.value;
    if !IsDir(h.tree, dir) {
      return Err(CannotRead(dir));
    }
    var total := TotalSize(h.tree, dir);
    if !Confirms(input) {
      return Ok(Cancelled(total));
    }
    if RmdirRefused(dir, name) {
      h.tree := ClearTree(h.tree, dir);
      return Err(CannotRemove(dir));
    }
    h.tree := RemoveTree(h.tree, dir);
    r := Ok(Removed(total));
  }
}
