/** The numeric constants of the engine (network::Constants) and the kinds of
    error it raises (network::NetworkError and its subclasses, plus the
    std::out_of_range thrown by the bounds checks). */
module Constants {

  const WeightSynapsesDefault: real := 0.50
  const OutputNeuronDefault: real := 0.50
  const LearningRateDefault: real := 0.10
  const ErrorDefault: real := 0.50
  /** Step of the forward finite difference. */
  const Esp: real := 0.01
  const ThresholdSingleJump: real := 10.0
  /** Factor applied to the argument of exp inside the sigmoid. */
  const DegreeFunction: real := 1.00

  /** Bounds of the uniform initial synapse weight drawn by Primitive::connect. */
  const WeightMin: real := -0.5
  const WeightMax: real := 0.5

  datatype Error =
    | FileNotFound       // FileNotFoundError
    | FolderNotFound     // FolderNotFoundError
    | Parse              // ParseError
    | NotInitialize      // NotInitializeError
    | OutOfRange         // std::out_of_range
}
