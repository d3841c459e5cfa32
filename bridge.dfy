/** The method channel between the native shims and the application layer. */
module Bridge {

  /** What a method-call handler answers through its `result` callback. */
  datatype Reply = Success(value: bool) | Error(code: string) | NotImplemented
}
