/** The application's record types (types.ts), as values. */
module Types {
  import opened Wrappers

  /** Who wrote a chat message. */
  datatype Role = User | Model

  /** An uploaded image: its MIME type and its base64 payload. */
  datatype Attachment = Attachment(mimeType: string, data: string)

  datatype WebSource = WebSource(uri: string, title: string)

  /** A grounding chunk; only chunks with a `web` part are shown as sources. */
  datatype GroundingChunk = GroundingChunk(web: Option<WebSource>)

  /** Search grounding returned with a reply (the optional supports, entry point and queries are not modelled). */
  datatype GroundingMetadata = GroundingMetadata(groundingChunks: seq<GroundingChunk>)

  datatype Message = Message(
    id: string,
    role: Role,
    text: string,
    attachments: Option<seq<Attachment>>,
    timestamp: int,
    groundingMetadata: Option<GroundingMetadata>,
    suggestions: Option<seq<string>>)

  datatype MissionType = Botanist | Zoologist | Geologist | Ecologist

  datatype ChatSession = ChatSession(
    id: string,
    title: string,
    missionType: Option<MissionType>,
    messages: seq<Message>,
    updatedAt: int)

  datatype GalleryItem = GalleryItem(
    src: string,
    alt: string,
    sourceMessageId: string,
    timestamp: int,
    isUser: bool)

  datatype Badge = Badge(id: string, name: string, description: string, icon: string, unlockedAt: Option<int>)

  datatype UserProfile = UserProfile(
    name: string,
    bio: string,
    specialization: string,
    avatar: string,
    xp: int,
    level: int,
    streakDays: int,
    lastLoginDate: string,
    badges: seq<Badge>,
    observationsCount: int)

  /** A community post; `isLiked` is absent on posts that were never toggled. */
  datatype Post = Post(
    id: int,
    userId: string,
    user: string,
    avatar: string,
    title: string,
    description: string,
    image: string,
    likes: int,
    comments: int,
    timestamp: string,
    isLiked: Option<bool>,
    tags: seq<string>)

  /** A rank of the researcher ladder. */
  datatype Rank = Rank(minXp: int, title: string, color: string)

  /** The four top-level views of the application. */
  datatype ViewMode = Chat | Gallery | Journal | Community
}
