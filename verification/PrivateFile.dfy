/** One private file and one caller: the lock and the atomic replace, statement by statement. */
module PrivateFile {
  import opened Text

  /** Where a writer meets an exception: locking or reading, making the temporary file, writing it after `count`
      characters, replacing, or setting the mode and syncing the directory afterwards. */
  datatype Fault = Nowhere | AtRead | AtTemp | AtWrite(count: nat) | AtReplace | AtSettle

  predicate BeforeReplace(fault: Fault) {
    fault.AtRead? || fault.AtTemp? || fault.AtWrite? || fault.AtReplace?
  }

  class PrivateFile {
    var content: Option<string>
    var temp: Option<string>
    var locked: bool

    constructor (content: Option<string>)
      ensures this.content == content && temp.None? && !locked
    {
      this.content, temp, locked := content, None, false;
    }

    /** `atomic_private_write`: all of the text or none of it, and a temporary file only if the
        unlink in its `finally` fails as well. */
    method AtomicWrite(text: string, fault: Fault, unlinks: bool) returns (ok: bool)
      requires temp.None? && !fault.AtRead?
      modifies this`content, this`temp
      ensures ok == fault.Nowhere?
      ensures content == if BeforeReplace(fault) then old(content) else Some(text)
      ensures temp.Some? <==> (fault.AtWrite? || fault.AtReplace?) && !unlinks
    {
      ok := false;
      if fault.AtTemp? {
        return;
      }
      temp := Some("");
      if fault.AtWrite? {
        temp := Some(text[..if fault.count < |text| then fault.count else |text|]);
      } else {
        temp := Some(text);
        if !fault.AtReplace? {
          content, temp := temp, None;
          ok := !fault.AtSettle?;
        }
      }
      if temp.Some? && unlinks {
        temp := None;
      }
    }

    /** A whole locked update: `update` turns the content that was read into the text to write, or
        into nothing to write. The lock is released on every path. */
    method Update(update: Option<string> -> Option<string>, fault: Fault, unlinks: bool) returns (ok: bool)
      requires !locked && temp.None?
      modifies this
      ensures !locked
      ensures ok ==> content == if update(old(content)).Some? then update(old(content)) else old(content)
      ensures !ok ==> !fault.Nowhere? && content in [old(content), update(old(content))]
      ensures content == if BeforeReplace(fault) || update(old(content)).None? then old(content)
                         else update(old(content))
      ensures ok <==> fault.Nowhere? || (update(old(content)).None? && !fault.AtRead?)
      ensures temp.Some? ==> !ok && !unlinks
    {
      locked := true;
      if fault.AtRead? {
        ok := false;
      } else {
        var text := update(content);
        if text.Some? {
          ok := AtomicWrite(text.value, fault, unlinks);
        } else {
          ok := true;
        }
      }
      locked := false;
    }
  }
}
