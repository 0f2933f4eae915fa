/** Full names and namespaces (avro/devices/avro/schema.py: Name; the "Names" section of the Avro specification). */
module SchemaNames {
  import opened Basics
  import opened Schemas
  import opened SchemaText

  /** The namespace that applies to a name without a dot: its own, or else the one around it. */
  function Applying(space: Option<string>, default: Option<string>): string {
    if NonEmpty(space) then space.value else if NonEmpty(default) then default.value else ""
  }

  lemma {:induction false} LastDot(space: string, name: string)
    requires '.' !in name
    ensures BeforeLastDot(space + "." + name) == space
    decreases |name|
  {
    var full := space + "." + name;
    assert full[|space|] == '.';
    if name == "" {
      assert full[..|full| - 1] == space;
    } else {
      var shorter := name[..|name| - 1];
      assert full[|full| - 1] == name[|name| - 1];
      assert full[..|full| - 1] == space + "." + shorter;
      LastDot(space, shorter);
    }
  }

  /** A name without a dot takes the namespace that applies to it, and its full name leads back to that namespace. */
  lemma SimpleName(name: string, space: Option<string>, default: Option<string>)
    requires name != "" && '.' !in name
    ensures
      var (full, applying) := (FullName(name, space, default), Applying(space, default));
      && full == (if applying == "" then name else applying + "." + name)
      && (applying == "" || applying[0] != '.' ==> GetSpace(full) == applying)
  {
    var applying := Applying(space, default);
    if applying != "" {
      LastDot(applying, name);
      assert (applying + "." + name)[|applying|] == '.';
    }
  }

  /** A name with a dot is a full name already: namespaces do not matter, and it stands for itself everywhere. */
  lemma DottedName(name: string, space: Option<string>, default: Option<string>)
    requires '.' in name
    ensures FullName(name, space, default) == name
    ensures name[0] != '.' ==>
      var space := GetSpace(name);
      |space| < |name| && name == space + "." + name[|space| + 1..] && '.' !in name[|space| + 1..]
    ensures name[0] == '.' ==> GetSpace(name) == ""
  {
    SplitsAtLastDot(name);
  }

  lemma {:induction false} SplitsAtLastDot(full: string)
    requires '.' in full
    ensures
      var space := BeforeLastDot(full);
      |space| < |full| && full == space + "." + full[|space| + 1..] && '.' !in full[|space| + 1..]
  {
    var last := |full| - 1;
    if full[last] == '.' {
      assert full == full[..last] + "." + full[last + 1..];
    } else {
      var init := full[..last];
      assert full == init + [full[last]];
      SplitsAtLastDot(init);
      var space := BeforeLastDot(init);
      assert full[|space| + 1..] == init[|space| + 1..] + [full[last]];
    }
  }

  /** A reference from inside the namespace of a type may leave that namespace out. */
  lemma ShortReference(name: string, space: string)
    requires name != "" && '.' !in name && space != "" && space[0] != '.'
    ensures FullName(name, None, Some(space)) == FullName(space + "." + name, None, None)
    ensures FullName(name, None, Some(GetSpace(FullName(name, Some(space), None)))) == FullName(name, Some(space), None)
  {
    SimpleName(name, None, Some(space));
    SimpleName(name, Some(space), None);
    assert (space + "." + name)[|space|] == '.';
  }
}
