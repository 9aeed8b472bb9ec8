/**
 * The increment_version management command: it loads the major and minor
 * version numbers from version.json into the command object, increments one
 * of them as its flags say, saves them back and reports the new version.
 */
module IncrementVersion {
  import opened Wrappers
  import opened VersionFile

  /** Why the command stops without saving. */
  datatype HandleError =
    | UsageError          // both --major and --minor: the argument parser refuses them
    | BadVersionFile      // version.json does not hold the two numbers
    | UnboundVersionType  // neither flag: version_type is never bound

  /**
   * The command object. major and minor are its MAJOR_VERSION and
   * MINOR_VERSION attributes; versionFile is the text of version.json.
   */
  class Command {
    var major: int
    var minor: int
    var versionFile: string

    constructor (fileText: string)
      ensures versionFile == fileText && major == 0 && minor == 0
    {
      versionFile := fileText;
      major, minor := 0, 0;
    }

    /** get_version_from_json: the numbers become those of version.json; on a malformed file nothing changes. */
    method GetVersionFromJson() returns (ok: bool)
      modifies this
      ensures versionFile == old(versionFile)
      ensures ok <==> ParseVersionJson(versionFile).Some?
      ensures ok ==> (major, minor) == ParseVersionJson(versionFile).value
      ensures !ok ==> major == old(major) && minor == old(minor)
    {
      match ParseVersionJson(versionFile)
      case None =>
        ok := false;
      case Some((ma, mi)) =>
        major, minor := ma, mi;
        ok := true;
    }

    /** get_version_string: the version string of the current numbers. */
    method GetVersionString() returns (s: string)
      ensures s == VersionString(major, minor)
    {
      s := VersionString(major, minor);
    }

    /**
     * increment_version: "major" adds one to the major number and resets the
     * minor number to zero; "minor" adds one to the minor number only; any
     * other argument changes nothing.
     */
    method IncrementVersion(which: string)
      modifies this
      ensures which == "major" ==> major == old(major) + 1 && minor == 0
      ensures which == "minor" ==> major == old(major) && minor == old(minor) + 1
      ensures which != "major" && which != "minor" ==> major == old(major) && minor == old(minor)
      ensures (major, minor) == Bump(old(major), old(minor), which)
      ensures versionFile == old(versionFile)
    {
      if which == "major" {
        major := major + 1;
        minor := 0;
      } else if which == "minor" {
        minor := minor + 1;
      }
    }

    /** save_version_numbers: version.json now holds the current numbers, and loading it gives them back. */
    method SaveVersionNumbers()
      modifies this
      ensures major == old(major) && minor == old(minor)
      ensures versionFile == VersionJson(major, minor)
      ensures ParseVersionJson(versionFile) == Some((major, minor))
    {
      versionFile := VersionJson(major, minor);
      VersionJsonRoundTrip(major, minor);
    }

    /**
     * handle, with the argument parser's mutually exclusive group in front
     * of it: with exactly one flag and a well-formed version.json the file
     * ends up holding the incremented numbers and the new version string is
     * reported; in every other case version.json is left as it was.
     */
    method Handle(majorFlag: bool, minorFlag: bool) returns (r: Result<string, HandleError>)
      modifies this
      ensures r == Err(UsageError) <==> majorFlag && minorFlag
      ensures !(majorFlag && minorFlag) ==>
                (r == Err(BadVersionFile) <==> ParseVersionJson(old(versionFile)).None?)
      ensures r == Err(UnboundVersionType) <==>
                !majorFlag && !minorFlag && ParseVersionJson(old(versionFile)).Some?
      ensures r.Err? ==> versionFile == old(versionFile)
      ensures r.Ok? ==>
                ParseVersionJson(old(versionFile)).Some?
                && var (ma, mi) := ParseVersionJson(old(versionFile)).value;
                   (major, minor) == Bump(ma, mi, if majorFlag then "major" else "minor")
                   && ParseVersionJson(versionFile) == Some((major, minor))
                   && r.value == VersionString(major, minor)
    {
      if majorFlag && minorFlag {
        return Err(UsageError);
      }
      var ok := GetVersionFromJson();
      if !ok {
        return Err(BadVersionFile);
      }
      var versionType: Option<string> := None;
      if majorFlag {
        versionType := Some("major");
      }
      if minorFlag {
        versionType := Some("minor");
      }
      if versionType.None? {
        return Err(UnboundVersionType);
      }
      IncrementVersion(versionType.value);
      SaveVersionNumbers();
      var s := GetVersionString();
      r := Ok(s);
    }
  }
}
