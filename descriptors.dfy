/**
 * Endpoint descriptors, as the server's method table lists them: a dict with
 * the endpoint's name, URI template, HTTP verb, the type name of each
 * parameter, and a description.
 */
module Descriptors {

  datatype Descriptor = Descriptor(
    name: string,
    uri: string,
    httpMethod: string,
    params: map<string, string>,
    description: string)

  /** A method table: the list of descriptors the server returns. */
  type MethodTable = seq<Descriptor>
}
