/** The podcast settings record the wizard keeps and the settings form edits. */
module Settings {

  /** One field per form control; every field is text, as the form stores it. */
  datatype PodcastSettings = PodcastSettings(
    podcastTitle: string,
    nextEpisodePreview: string,
    language: string,
    mode: string,
    scriptLength: string,
    role1Name: string,
    role1Style: string,
    roleAName: string,
    roleAStyle: string,
    roleBName: string,
    roleBStyle: string)

  /** The values the wizard starts from: Chinese, one host, medium length. */
  const Defaults := PodcastSettings("", "", "zh", "single", "medium", "", "专业", "", "温和", "", "温和")

  /** Anything other than `"single"` is treated as the two-host mode. */
  predicate IsSingle(s: PodcastSettings) {
    s.mode == "single"
  }
}
