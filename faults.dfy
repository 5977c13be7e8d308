/**
 * The Ruby exceptions other than `TestRail::APIError` that can escape
 * `submit_result`. `set_testrail_results` rescues none of them.
 */
module Faults {

  datatype Fault =
    | NoMethodError(message: string)  // a method called on nil
    | FileNotFound(path: string)      // Errno::ENOENT from File.readlines
    | ClientError(message: string)    // any other exception the HTTP client raises

  const UndefinedMethod := "undefined method `"

  /**
   * Ruby's message for `nil[...]` and `nil.text`, in the format of Ruby 3.3
   * and earlier: it opens with "undefined method `", names the method right
   * after, and goes on to say the receiver was nil. (Ruby 3.4 quotes the
   * method as '[]' instead; nothing reads the message but a person.)
   */
  function NilReceiver(selector: string): (f: Fault)
    ensures f.NoMethodError?
    ensures |f.message| > |UndefinedMethod| + |selector|
    ensures f.message[..|UndefinedMethod|] == UndefinedMethod
    ensures f.message[|UndefinedMethod|..|UndefinedMethod| + |selector|] == selector
  {
    NoMethodError(UndefinedMethod + selector + "' for nil:NilClass")
  }
}
