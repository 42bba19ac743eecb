/** Header lists, as the client passes them around. */
module Headers {
  datatype Pair = Pair(name: string, value: string)
}
