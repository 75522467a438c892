/** The path check that guards every secure file operation: a fixed
    sequence of guards, then a scan for device and kernel paths. */
module FileOps {
  import opened Wrappers
  import opened Text

  datatype SecurityError = SecurityError(operation: string, path: string, reason: string)

  /** `SecurityError.Error`. */
  function ErrorText(e: SecurityError): string
  {
    "security error in " + e.operation + " operation on '" + e.path + "': " + e.reason
  }

  /** The longest path accepted, in bytes. */
  const MaxPathLength: nat := 4096

  /** Kernel and device trees, then the Windows device and extended-length
      prefixes `\\.\` and `\\?\`. */
  const SuspiciousPatterns: seq<string> := ["/proc/", "/sys/", "/dev/", "\\\\.\\", "\\\\?\\"]

  const SuspiciousReason: string := "path contains suspicious pattern: "

  /** What the check returns and whether it reported a file-access
      violation on the way. */
  datatype Verdict = Verdict(err: Option<SecurityError>, logged: bool)

  function Reject(path: string, reason: string, logged: bool): (v: Verdict)
    ensures v.err == Some(SecurityError("validate", path, reason)) && v.logged == logged
  {
    Verdict(Some(SecurityError("validate", path, reason)), logged)
  }

  /** The first pattern, from index `k` on, that occurs in `lower`. */
  function FirstSuspicious(lower: string, k: nat): (r: Option<string>)
    requires k <= |SuspiciousPatterns|
    ensures r.None? <==> forall j :: k <= j < |SuspiciousPatterns| ==> !Contains(lower, SuspiciousPatterns[j])
    ensures r.Some? ==> exists j :: (k <= j < |SuspiciousPatterns| && r.value == SuspiciousPatterns[j]
      && Contains(lower, SuspiciousPatterns[j])
      && forall j' :: k <= j' < j ==> !Contains(lower, SuspiciousPatterns[j']))
    decreases |SuspiciousPatterns| - k
  {
    if k == |SuspiciousPatterns| then None
    else if Contains(lower, SuspiciousPatterns[k]) then Some(SuspiciousPatterns[k])
    else FirstSuspicious(lower, k + 1)
  }

  /** `SecureFileOps.ValidatePath`. */
  function ValidatePath(path: string): (v: Verdict)
    ensures v.err.Some? ==> v.err.value.operation == "validate" && v.err.value.path == path
    ensures v.logged <==> path == "" || '\0' in path || Contains(path, "..")
    ensures v.logged ==> v.err.Some?
  {
    if path == "" then Reject(path, "path cannot be empty", true)
    else
      ContainsChar(path, '\0');
      if Contains(path, "\0") then Reject(path, "path contains null bytes", true)
      else if Contains(path, "..") then Reject(path, "path contains directory traversal sequences", true)
      else if Utf8Len(path) > MaxPathLength then Reject(path, "path exceeds maximum length", false)
      else match FirstSuspicious(ToLower(path), 0)
        case Some(pattern) => Reject(path, SuspiciousReason + pattern, false)
        case None => Verdict(None, false)
  }

  /** `SecureFileOps.ValidatePath` as written: the guards, then the loop
      over the patterns, returning at the first one the lowered path holds. */
  method CheckPath(path: string) returns (v: Verdict)
    ensures v == ValidatePath(path)
  {
    if path == "" {
      return Reject(path, "path cannot be empty", true);
    }
    ContainsChar(path, '\0');
    if Contains(path, "\0") {
      return Reject(path, "path contains null bytes", true);
    }
    if Contains(path, "..") {
      return Reject(path, "path contains directory traversal sequences", true);
    }
    if Utf8Len(path) > MaxPathLength {
      return Reject(path, "path exceeds maximum length", false);
    }
    var lowerPath := ToLower(path);
    var k := 0;
    while k < |SuspiciousPatterns|
      invariant 0 <= k <= |SuspiciousPatterns|
      invariant FirstSuspicious(lowerPath, k) == FirstSuspicious(lowerPath, 0)
    {
      var pattern := SuspiciousPatterns[k];
      if Contains(lowerPath, pattern) {
        return Reject(path, SuspiciousReason + pattern, false);
      }
      k := k + 1;
    }
    return Verdict(None, false);
  }

  /** The guards run in order and the first that fails names the error. */
  lemma {:induction false} ValidatePathOrder(path: string)
    ensures path == "" ==> ValidatePath(path).err.value.reason == "path cannot be empty"
    ensures path != "" && '\0' in path ==> ValidatePath(path).err.value.reason == "path contains null bytes"
    ensures path != "" && '\0' !in path && Contains(path, "..") ==>
      ValidatePath(path).err.value.reason == "path contains directory traversal sequences"
    ensures path != "" && '\0' !in path && !Contains(path, "..") && Utf8Len(path) > MaxPathLength ==>
      ValidatePath(path).err.value.reason == "path exceeds maximum length"
  {
    ContainsChar(path, '\0');
  }

  /** After the guards, a path is rejected exactly when its lower-cased
      form holds a suspicious pattern, and the reason names the first. */
  lemma {:induction false} SuspiciousPathRejected(path: string)
    requires path != "" && '\0' !in path && !Contains(path, "..") && Utf8Len(path) <= MaxPathLength
    ensures ValidatePath(path).err.Some? <==>
      exists k :: 0 <= k < |SuspiciousPatterns| && Contains(ToLower(path), SuspiciousPatterns[k])
    ensures ValidatePath(path).err.Some? ==> exists k :: (0 <= k < |SuspiciousPatterns| &&
      Contains(ToLower(path), SuspiciousPatterns[k]) && ValidatePath(path).err.value.reason == SuspiciousReason + SuspiciousPatterns[k])
  {
    ContainsChar(path, '\0');
  }

  /** The check accepts exactly the paths that pass every guard. */
  lemma {:induction false} ValidatePathAccepts(path: string)
    ensures ValidatePath(path).err.None? <==>
      && path != "" && '\0' !in path && !Contains(path, "..") && Utf8Len(path) <= MaxPathLength
      && forall k :: 0 <= k < |SuspiciousPatterns| ==> !Contains(ToLower(path), SuspiciousPatterns[k])
  {
    ContainsChar(path, '\0');
  }

  /** "/Proc/": mixed case does not hide the kernel tree. */
  lemma {:induction false} UpperCaseProcRejected()
    ensures ValidatePath("/Proc/").err == Some(SecurityError("validate", "/Proc/", SuspiciousReason + "/proc/"))
  {
    var p := "/Proc/";
    assert forall i :: 0 <= i < |p| ==> IsAscii(p[i]) && p[i] != '.' && p[i] != '\0';
    Utf8LenAscii(p);
    AbsentNotContained(p, "..");
    var lower := ToLower(p);
    assert lower[1] == 'p' && lower[2] == 'r' && lower[3] == 'o' && lower[4] == 'c' && lower[5] == '/';
    assert lower[0..6] == "/proc/";
    assert MatchAt(lower, SuspiciousPatterns[0], 0);
    assert FirstSuspicious(lower, 0) == Some("/proc/");
  }
}
