/** The provider families the fallback service knows, the service handles
    of the registry, and the entries of the fallback chain. */
module Providers {
  import opened Wrappers

  /** The four families, declared in chain priority order. */
  datatype Provider = Proxy | Google | Anthropic | OpenAI {

    /** The provider id: the registry key, the `provider` field of a chain
        entry, the substring the resolver looks for and the name in error text. */
    function Id(): string {
      match this
      case Proxy => "proxy"
      case Google => "google"
      case Anthropic => "anthropic"
      case OpenAI => "openai"
    }

    /** Position in the priority order proxy, google, anthropic, openai. */
    function Rank(): (r: nat)
      ensures r < |Priority| && Priority[r] == this
    {
      match this
      case Proxy => 0
      case Google => 1
      case Anthropic => 2
      case OpenAI => 3
    }

    /** The configuration key that overrides the provider's model. */
    function ModelKey(): string {
      match this
      case Proxy => "OLLAMA_MODEL"
      case Google => "GEMINI_MODEL"
      case Anthropic => "ANTHROPIC_MODEL"
      case OpenAI => "OPENAI_MODEL"
    }

    /** The hard-coded model used when the override is absent. */
    function DefaultModel(): string {
      match this
      case Proxy => "ollama/llama3.1"
      case Google => "gemini-2.0-flash-exp"
      case Anthropic => "claude-3-5-sonnet-20241022"
      case OpenAI => "gpt-4o"
    }

    /** The credential the provider needs; the proxy needs none. */
    function ApiKeyName(): Option<string> {
      match this
      case Proxy => None
      case Google => Some("GEMINI_API_KEY")
      case Anthropic => Some("ANTHROPIC_API_KEY")
      case OpenAI => Some("OPENAI_API_KEY")
    }
  }

  const Priority: seq<Provider> := [Proxy, Google, Anthropic, OpenAI]

  /** An opaque handle to a provider client held by the registry. */
  datatype Service = Service(handle: nat)

  /** The `services` record: provider id to client. */
  type Registry = map<string, Service>

  /** A (provider, model) pair: what introspection reports and what one
      provider call is made with. */
  datatype Route = Route(provider: Provider, model: string)

  /** One link of the fallback chain. */
  datatype Entry = Entry(provider: Provider, service: Service, model: string) {
    function ToRoute(): Route {
      Route(provider, model)
    }
  }

  type Chain = seq<Entry>

  /** `p` has an entry in the chain. */
  predicate InChain(chain: Chain, p: Provider) {
    exists i :: 0 <= i < |chain| && chain[i].provider == p
  }
}
