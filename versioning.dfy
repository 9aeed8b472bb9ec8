/**
 * The stand-alone versioning script. Its MAJOR_VERSION and MINOR_VERSION are
 * module globals, read from version.json when the module is imported; main
 * increments one of them as its flags say and saves them back.
 */
module Versioning {
  import opened Wrappers
  import opened VersionFile

  /** Why main stops without saving. */
  datatype MainError =
    | UsageError          // both --incr_major and --incr_minor: the argument parser refuses them
    | UnboundVersionType  // neither flag: version_type is never bound

  /** The module's globals: the two version numbers and the text of version.json. */
  class Globals {
    var major: int
    var minor: int
    var versionFile: string

    constructor (fileText: string, major0: int, minor0: int)
      ensures versionFile == fileText && major == major0 && minor == minor0
    {
      versionFile := fileText;
      major, minor := major0, minor0;
    }

    /** get_version_string: the version string of the current numbers. */
    method GetVersionString() returns (s: string)
      ensures s == VersionString(major, minor)
    {
      s := VersionString(major, minor);
    }

    /**
     * increment_version: "major" adds one to MAJOR_VERSION and resets
     * MINOR_VERSION to zero; "minor" adds one to MINOR_VERSION only; any
     * other argument changes nothing.
     */
    method IncrementVersion(which: string)
      modifies this
      ensures which == "major" ==> major == old(major) + 1 && minor == 0
      ensures which == "minor" ==> major == old(major) && minor == old(minor) + 1
      ensures which != "major" && which != "minor" ==> major == old(major) && minor == old(minor)
      ensures (major, minor) == Bump(old(major), old(minor), which)
      ensures versionFile == old(versionFile)
    {
      if which == "major" {
        major := major + 1;
        minor := 0;
      } else if which == "minor" {
        minor := minor + 1;
      }
    }

    /** save_version_numbers: version.json now holds exactly the current numbers. */
    method SaveVersionNumbers()
      modifies this
      ensures major == old(major) && minor == old(minor)
      ensures versionFile == VersionJson(major, minor)
      ensures ParseVersionJson(versionFile) == Some((major, minor))
    {
      versionFile := VersionJson(major, minor);
      VersionJsonRoundTrip(major, minor);
    }

    /**
     * main: with exactly one flag the numbers are incremented and saved, so
     * that a fresh import reads the incremented numbers back; otherwise
     * nothing changes.
     */
    method RunMain(incrMajor: bool, incrMinor: bool) returns (r: Result<(), MainError>)
      modifies this
      ensures r == Err(UsageError) <==> incrMajor && incrMinor
      ensures r == Err(UnboundVersionType) <==> !incrMajor && !incrMinor
      ensures r.Ok? <==> incrMajor != incrMinor
      ensures r.Err? ==> major == old(major) && minor == old(minor) && versionFile == old(versionFile)
      ensures r.Ok? ==>
                (major, minor) == Bump(old(major), old(minor), if incrMajor then "major" else "minor")
                && ParseVersionJson(versionFile) == Some((major, minor))
    {
      if incrMajor && incrMinor {
        return Err(UsageError);
      }
      var versionType: Option<string> := None;
      if incrMajor {
        versionType := Some("major");
      }
      if incrMinor {
        versionType := Some("minor");
      }
      if versionType.None? {
        return Err(UnboundVersionType);
      }
      IncrementVersion(versionType.value);
      SaveVersionNumbers();
      r := Ok(());
    }
  }

  /**
   * Importing the module: the globals take the numbers in version.json; a
   * malformed file makes the import fail.
   */
  method Import(fileText: string) returns (g: Option<Globals>)
    ensures g.Some? <==> ParseVersionJson(fileText).Some?
    ensures g.Some? ==> fresh(g.value) && g.value.versionFile == fileText
                        && (g.value.major, g.value.minor) == ParseVersionJson(fileText).value
  {
    match ParseVersionJson(fileText)
    case None =>
      g := None;
    case Some((ma, mi)) =>
      var globals := new Globals(fileText, ma, mi);
      g := Some(globals);
  }

  /** Running main and importing the module again reads back the incremented numbers. */
  method MainThenImport(fileText: string, incrMajor: bool, incrMinor: bool)
    returns (before: Option<(int, int)>, after: Option<(int, int)>)
    ensures before == ParseVersionJson(fileText)
    ensures before.Some? && incrMajor != incrMinor ==>
              after == Some(Bump(before.value.0, before.value.1, if incrMajor then "major" else "minor"))
    ensures before.Some? && incrMajor == incrMinor ==> after == before
  {
    var g := Import(fileText);
    before := ParseVersionJson(fileText);
    after := None;
    if g.Some? {
      var globals := g.value;
      var r := globals.RunMain(incrMajor, incrMinor);
      var saved := globals.versionFile;
      var g2 := Import(saved);
      if g2.Some? {
        after := Some((g2.value.major, g2.value.minor));
      }
    }
  }
}
