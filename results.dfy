/** Failure-compatible result types shared by the whole model, and the kinds of
    failure the modelled Java code raises.  Exception messages are reduced to
    the data they carry; the exact wording is not modelled. */
module Results {

  datatype Option<+T> = None | Some(value: T) {
    function GetOr(default: T): T {
      match this
      case Some(v) => v
      case None => default
    }
  }

  /** The failures the modelled code can raise, one constructor per kind. */
  datatype Error =
    // java.lang.StringIndexOutOfBoundsException from a substring with begin > end
    | StringIndexOutOfBounds
    // PropertyNamer: "Error parsing property name ... Didn't start with 'is', 'get' or 'set'."
    | NotAPropertyMethod(methodName: string)
    // Reflector: "There is no getter/setter for property named ... in ..."
    | NoGetter(property: string, owner: string)
    | NoSetter(property: string, owner: string)
    // Reflector: "There is no default constructor for ..."
    | NoDefaultConstructor(owner: string)
    // AmbiguousMethodInvoker, raised only when that accessor is invoked
    | AmbiguousGetter(property: string, declaringClass: string)
    | AmbiguousSetters(property: string, declaringClass: string, type1: string, type2: string)
    // java.lang.NumberFormatException from Integer.parseInt
    | NumberFormat(text: string)
    // List.get/set or an array access outside [0, length)
    | IndexOutOfBounds(index: int, length: int)
    // BaseWrapper: "The '...' property of ... is not a List or Array."
    | NotListOrArray(property: string)
    // casts and stores into typed arrays
    | ClassCast(expected: string, actual: string)
    | NullPointer
    | ArrayStore(component: string, actual: string)
    // Method.invoke / Field.set with an argument the parameter type does not accept
    | IllegalArgument(expected: string)
    // BeanWrapper: "Could not set property ... Cause: ..."
    | CouldNotSetProperty(property: string, owner: string, cause: Error)
    // BeanWrapper: "Cannot set value of property ... because ... is null and cannot be instantiated ..."
    | CannotInstantiateProperty(property: string, propertyType: string, cause: Error)
    // DefaultObjectFactory: "Error instantiating ... with invalid types (...) or values (...)"
    | InstantiationFailed(targetType: string, argTypes: string, argValues: string)
    // java.lang.UnsupportedOperationException
    | Unsupported
    // an ObjectWrapper supplied from outside the model (the object itself, or a custom factory)
    | ForeignWrapper

  datatype Result<+T> = Ok(value: T) | Err(error: Error) {
    predicate IsFailure() {
      Err?
    }

    function PropagateFailure<U>(): Result<U>
      requires Err?
    {
      Err(error)
    }

    function Extract(): T
      requires Ok?
    {
      value
    }
  }

  /** The result of an operation that returns nothing (a Java `void` method). */
  datatype Outcome = Pass | Fail(error: Error) {
    predicate IsFailure() {
      Fail?
    }

    function PropagateFailure(): Outcome
      requires Fail?
    {
      this
    }
  }
}
