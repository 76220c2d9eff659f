/** The files through which the event handler and the overlay agree on the
    current workspace: `.aerogel_workspace` holds its number, and each
    workspace's assistant output goes to `.tmp<n>`. */
module Workspace {
  import opened Wrappers
  import opened Strings
  import opened Numbers

  const WORKSPACE_STATE_FILE: string := ".aerogel_workspace"

  /** `get_text_log_output_path`: the text log of a workspace. */
  function TextLogPath(workspace: nat): (path: string)
    ensures StartsWith(path, ".tmp") && |path| > 4
  {
    ".tmp" + NatToString(workspace)
  }

  /** What `update_workspace_state_file` writes. */
  function WorkspaceFileContent(workspace: nat): string {
    NatToString(workspace)
  }

  /** The overlay's `read_current_workspace`: the trimmed file content read
      as a u32, or None when the file is missing or does not hold one. */
  function ReadCurrentWorkspace(content: Option<string>): (r: Option<U32>)
    ensures content.None? ==> r.None?
  {
    match content
    case None => None
    case Some(s) =>
      match ParseU32(Trim(s))
      case Some(n) => Some(n)
      case None => None
  }

  /** Every workspace has its own text log. */
  lemma TextLogPathInjective(m: nat, n: nat)
    requires TextLogPath(m) == TextLogPath(n)
    ensures m == n
  {
    assert TextLogPath(m)[4..] == NatToString(m);
    assert TextLogPath(n)[4..] == NatToString(n);
    NatToStringInjective(m, n);
  }

  /** The overlay reads back the workspace the event handler wrote. */
  lemma WorkspaceFileRoundTrip(n: U32)
    ensures ReadCurrentWorkspace(Some(WorkspaceFileContent(n))) == Some(n)
  {
    var s := NatToString(n);
    IntToStringShape(n);
    TrimUntouched(s);
    ParseU32OfNatToString(n);
  }
}
