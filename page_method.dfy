/** The `PageMethod` descriptor: a page method name, its arguments, and a
    slot for the result the handler stores after calling it. */
module PageMethods {
  import opened Common

  const ClassName: string := "PageMethod"
  const DescriptionHead: string := "<" + ClassName + " for method '"
  const DescriptionTail: string := "'>"

  class PageMethod {
    const methodName: string
    const args: seq<Value>
    const kwargs: map<string, Value>
    var result: Value

    constructor (methodName: string, args: seq<Value>, kwargs: map<string, Value>)
      ensures this.methodName == methodName && this.args == args && this.kwargs == kwargs
      ensures result == NoneValue
    {
      this.methodName := methodName;
      this.args := args;
      this.kwargs := kwargs;
      result := NoneValue;
    }

    /** `str(pm)`, and also `repr(pm)`, which is the same function. */
    function Str(): (s: string)
      ensures DescribedMethod(s) == Some(methodName)
      ensures |s| == |DescriptionHead| + |methodName| + |DescriptionTail|
    {
      DescribedMethodRoundTrip(methodName);
      Describe(methodName)
    }
  }

  function Describe(name: string): string
  {
    DescriptionHead + name + DescriptionTail
  }

  /** Reads the method name back out of a description. */
  function DescribedMethod(s: string): Option<string>
  {
    if |DescriptionHead| + |DescriptionTail| <= |s|
       && s[..|DescriptionHead|] == DescriptionHead
       && s[|s| - |DescriptionTail|..] == DescriptionTail
    then Some(s[|DescriptionHead|..|s| - |DescriptionTail|])
    else None
  }

  lemma DescribedMethodRoundTrip(name: string)
    ensures DescribedMethod(Describe(name)) == Some(name)
  {
    var s := Describe(name);
    assert s[..|DescriptionHead|] == DescriptionHead;
    assert s[|s| - |DescriptionTail|..] == DescriptionTail;
    assert s[|DescriptionHead|..|s| - |DescriptionTail|] == name;
  }

  /** Two descriptors describe themselves alike exactly when they name the
      same method. */
  lemma DescribeInjective(a: string, b: string)
    ensures Describe(a) == Describe(b) <==> a == b
  {
    if Describe(a) == Describe(b) {
      DescribedMethodRoundTrip(a);
      DescribedMethodRoundTrip(b);
    }
  }

  /** An entry of a request's page-method list: a `PageMethod`, or any
      other value, which the handler skips. */
  datatype Step = Call(pm: PageMethod) | NotAPageMethod(value: Value)
}
