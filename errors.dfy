/**
 * What the property engine can raise. Besides its own exception classes the engine
 * lets Python's built-in errors escape (an index past the end of a split, a missing
 * dictionary key, an attribute read on `None`); each becomes a constructor here.
 */
module Errors {

  datatype Error =
    | MalformedSource(source: string)         // IndexError while splitting a property's source
    | ProviderNotFound(className: string)     // ProviderNotFound
    | ProviderMethodNotFound(methodName: string)  // ProviderMethodNotFound
    | PropertyNotFound(name: string)          // PropertyNotFoundException
    | UnknownOperator(operator: string)       // UnknownOperatorException
    | InvalidOption(option: string)           // ValueError from the scalar coercion
    | IndexOutOfRange                         // IndexError on an empty string or a missing piece
    | KeyNotFound(key: string)                // KeyError on a record
    | NoSuchProperty(name: string)            // AttributeError: a name lookup gave None
    | NoRow                                   // TypeError: the store returned no row to read
    | NullByte                                // _csv.Error: line contains NULL byte
    | NewlineInUnquotedField                  // _csv.Error: new-line character seen in unquoted field
    | FieldTooLarge(limit: nat)               // _csv.Error: field larger than field limit
}
